# diskBench, verified

diskBench measures storage by keeping a fixed number of asynchronous requests in flight on a file
while it checks that what it reads back is what it wrote. This project models that engine in Dafny
and proves what it keeps true, over every input, every order of transfer and completion, and every
run.

The model has five parts.

* **The request queue and the worker loop.** `Protocol` describes a worker and its platform as a
  transition system with four events: a request is submitted, the limit check refuses one, the
  platform moves one sector between a slot's buffer and the file, the platform completes a request.
  `Outcome` gives the state a sequence of events leads to, so a theorem about `Outcome` is a theorem
  about every run. `Queue.AsyncQueue` is the program's own queue, with its counters, its ring of
  free slots and the one I/O buffer it divides, and `WorkerLoop` is the thread that drives it; every
  method is tied to the events by the abstraction `Abs`, from one sector copied up to the whole life
  of a worker thread (`RunWorker`), so that what is proved of runs holds of the imperative code.
  `TestRun` and `FilePreparation` draw those conclusions for a whole test and for the preparation of
  a file.
* **Data integrity.** `Xorshift`, `Stamps` and `Pattern` model the content of a sector, the loops
  that write and check it and the generator behind it. `Integrity`, `Alarms`, `Detection`,
  `Preparation` and `Campaign` prove what the scheme achieves: the watermark is safe on all runs,
  the check raises no false alarm, it reports exactly the damage it can see, and the preparation
  leaves a file without holes. `Overtaking`, `MixedPlans`, `MixedAlarms`, `StartReads`, `OneBlock`
  and `SeededRuns` find where a false alarm can be raised after all.
* **The workloads.** Sequential, random and mixed request generators, the interface they share, and
  the weighted choice of sizes. Each generator keeps the requests since its reset as a ghost history.
  `Seeds` says which requests a seed makes when buffers of random data are filled from the same seed,
  and the worker loop proves that its submissions are those.
* **Accounting.** `Accounting`, `Latency` and `Limits` follow bytes, requests, latencies and the I/O
  limit over the events of a run.
* **Statistics and the sweep.** The latency histogram, online mean and variance with merging and
  percentiles, and the loops over request sizes and queue depths.

Three properties one might expect do not hold on all inputs; for each the exact condition is proved.

* A run that mixes reads and writes can raise a false alarm, because the check uses the watermark of
  the moment when a read completes. With requests of any kind it never does if and only if the queue
  has one slot or the file is intact from end to end at the start (`Overtaking.ArbitraryQuietIff`).
  The mixed workload cannot make every request: its offsets lie on two grids of its smallest size
  S, one from the start of the file and one from its end. For arbitrary sequences of draws it never
  raises a false alarm if and only if the queue has one slot or every sector that is not intact is
  out of reach (`MixedAlarms.MixedQuietIff`): beyond what a write on the grid that the watermark
  lies on can raise it to, or in the first bytes of the file, before the grid from the end, where
  only a random read of block 0 could go, and no draw makes one. With sizes from 512 bytes up
  nothing is out of reach (`MixedAlarms.SectorsQuietIff`). Whether a draw reads block 0 depends on
  the size of the file: below 2^30 smallest blocks some draw does if and only if at least S is left
  over whole multiples of 64 MB (`StartReads.CanReadStartIff`).
  The draws of one worker are not arbitrary, since each is made from the one before. Damage out of
  reach is so for every seed (`SeededRuns.SeededQuiet`). On a file of one block of 2 MB the
  condition is exact for each seed: a false alarm takes two slots, a file that is not intact, a
  watermark still at zero, and draws that let a read and a write overlap
  (`SeededRuns.SeededQuietIff`). The seed of a new worker is such a seed
  (`SeededRuns.FirstSeedAlarms`): its first draws are a write and a read.
* The I/O limit can be overrun, because it is checked against the size a slot was last used with:
  never, for requests of one size, if and only if a full queue of them fits into the limit
  (`Limits.LimitHoldsIff`). The same condition decides whether the preparation leaves a file without
  holes or overlaps (`Preparation.AlwaysTilesIff`).
* The variance of combined counters is that of all samples together if and only if the means are
  apart by just the right amount (`Statistics.CombinedVarianceIff`); two pairs of samples for which
  it is not are in `Statistics.CombinedVarianceIsOff`.

Where the program and its own text disagree the model follows the program. The help text of
`--validateExisting` promises to validate existing files (`src/diskBench.c:810`), but the watermark
starts at zero (`src/diskBench.c:264`), so such a run accepts any content
(`Detection.ValidationAcceptsAll`). The comments on the four positions of the mixed workload
(`src/mixed_workload.c:48-55`) call the first two writes and the last two reads; the code uses them
the other way round. Its forward sequential read (`src/mixed_workload.c:106-112`) is dead code
(`MixedGenerator.NoForwardReads`).

Conventions: byte counts, latencies and times are natural numbers, words of the pattern are 64-bit
vectors, `double` is modelled by exact reals. Request sizes and the page size are whole sectors of
512 bytes; whether random data is written is fixed for a worker. `exit(1)` on an integrity error is
the flag `alarm`, after which no event is possible. The clock is any non-decreasing sequence, so a
worker may go round its loop any number of times (the parameter `turns`).

## Model

| member | source | states |
|---|---|---|
| Xorshift.StepInjective | include/diskBench.h:267-274 | the random step is injective and maps zero and nothing else to zero |
| Xorshift.DrawsInjective | include/diskBench.h:267-274 | so is any number of steps: one draw determines the seed it came from |
| Xorshift.RandomUint64 | include/diskBench.h:267-274 | the three in-place updates compute that step |
| Worker.IoWorker.constructor | src/diskBench.c:257-270 | a new worker has the program's seed, which `SeededRuns.FirstSeedAlarms` and `Seeds.FirstRandomReads` speak of, a watermark of zero and no alarm |
| Stamps.StampIs | src/queue.c:199 | the word in front of a sector is its offset modulo 2^64; two offsets carry the same word exactly when they agree modulo 2^64 |
| Pattern.SectorLayout | src/queue.c:198-218 | the reference content word by word: the stamp, then the seed and each next word drawn from the one before, or one constant |
| Pattern.FillPattern | src/queue.c:194-220 | filling a write's buffer puts the reference pattern of its own offset into every sector, each grown from the seed the one before left, changes nothing outside the request, and leaves the seed 62 draws per sector further |
| Pattern.FillSector | src/queue.c:198-218 | one turn of the filling loop writes one reference sector |
| Pattern.CheckPattern | src/queue.c:61-95 | the check of a read passes if and only if every sector of the request below the watermark is explained by some seed |
| Pattern.CheckSector | src/queue.c:65-93 | one turn of the checking loop decides that for one sector |
| Pattern.ChainedIffIntact | src/queue.c:64-95 | the checker's word-by-word chain passes exactly the sectors that equal the reference pattern of some seed |
| Pattern.DamageIsRejected | src/queue.c:64-95 | any damage to an intact sector that spares one word after the stamp, or hits the stamp, is rejected; with constant data all damage is |
| Pattern.SingleWordIsCaught | src/queue.c:64-95 | no change of a single word, stamp, seed or payload, passes |
| Pattern.MisplacedIsCaught | src/queue.c:67-69 | an intact sector read from another place passes only if the two offsets agree modulo 2^64 |
| Protocol.SlotsStep | src/queue.c:139-151 | ring and flights partition the slots, without duplicates, after every event |
| Protocol.FlightsStep | src/diskBench.c:79-95 | what the platform holds stays as submitted: inside the file, with its data, one flight per submission |
| Integrity.SoundAlways | src/queue.c:127-128 | on every run from a sound state: all sectors below the watermark are intact, it is sector aligned and never decreases, intact sectors stay intact, slots stay partitioned |
| Integrity.SoundStep | src/queue.c:103-151 | one event keeps all of that |
| Integrity.CompletedIntact | src/queue.c:103-128 | when a write completes every sector of it is intact on the file, whatever else was written meanwhile |
| Alarms.NoFalseAlarm | src/queue.c:61-95 | a run that only reads, only writes, has one slot, or begins on an intact file never reports an error |
| Alarms.QuietInside | src/queue.c:61-95 | with the watermark inside what was intact at the start, overlapping reads and writes raise no alarm |
| Alarms.AlarmNeeds | src/queue.c:61-128 | on any run, mixed ones included, an alarm takes a submitted read that covers a sector not intact at the start and below the watermark at the end |
| Overtaking.OvertakenRead | src/queue.c:61-128 | with two slots: after any reads, a read of a sector that is not intact and requests that raise the watermark past it can be scheduled so that the read completes last and raises a false alarm |
| Overtaking.ArbitraryQuietIff | src/queue.c:61-128 | for arbitrary workloads: no run alarms if and only if there is one slot or the file is intact from end to end |
| MixedAlarms.MixedQuiet | src/mixed_workload.c:88-160 | a run of the mixed workload raises no alarm if there is one slot or all damage is out of its reach |
| MixedAlarms.MixedAlarm | src/mixed_workload.c:88-160 | for arbitrary sequences of draws: for any sector that is not intact and within reach there are draws and a schedule of the mixed workload that end in a false alarm |
| MixedAlarms.MixedQuietIff | src/mixed_workload.c:88-160 | for arbitrary sequences of draws: the mixed workload never alarms if and only if there is one slot or all damage is out of its reach |
| MixedAlarms.SectorsQuietIff | src/mixed_workload.c:88-160 | for arbitrary sequences of draws and request sizes from one sector up: if and only if there is one slot or the file is intact from end to end |
| OneBlock.OneBlockQuietIff | src/queue.c:61-128 | requests that each cover the file, in any one order of reads and writes: no schedule alarms if and only if there is one slot, the file is intact, the watermark has been moved, all requests go in one direction, or they begin with as many writes as there are slots |
| SeededRuns.SeededQuiet | src/mixed_workload.c:88-160 | with the draws of one seed, which random write data advances too, no run alarms if there is one slot or all damage is out of reach |
| SeededRuns.SeededIsInOrder | src/mixed_workload.c:88-160 | on a file of one 2 MB block the runs of a seed are whole-file requests in the order of reads and writes that its draws choose |
| SeededRuns.SeededQuietIff | src/mixed_workload.c:88-160 | for each seed, on that file: the exact condition for no false alarm |
| SeededRuns.FirstSeedAlarms | src/diskBench.c:263 | with constant data and two slots the seed of a new worker can end in a false alarm if nothing has been written and that file is not intact |
| StartReads.CanReadStartIff | src/mixed_workload.c:100-127 | some draw makes a random read of block 0 if and only if at least the smallest size is left over whole multiples of 64 MB, for files below 2^30 smallest blocks |
| Detection.AlarmIff | src/queue.c:61-95 | whatever the file holds, a run of reads reports an error if and only if some finished read covered a damaged sector below the watermark |
| Campaign.CorruptionIsReported | src/queue.c:61-95 | after any session, change one word of a sector below the watermark: every run of reads in which a request that covers the sector finishes reports an error |
| Detection.ValidationAcceptsAll | src/diskBench.c:1003-1006 | a validation run, its watermark still zero, accepts any content |
| Accounting.WorkIsConserved | src/queue.c:112-125 | on every run bytes and requests submitted equal those completed plus those in flight, all are completed once the queue is empty, and total latency lies between count times minimum and count times maximum |
| Latency.LatencyIsMeasured | src/queue.c:31-125 | on every run, for each direction, the counters hold the number, the sum, the least and the greatest of the times from the submission event of a request to its completion event |
| Limits.ClosedIsFull | src/diskBench.c:73-77 | submissions end at the limit only when one more request of the largest size would pass it |
| Limits.OverrunBounded | src/diskBench.c:73-95 | submitted bytes never exceed the limit by more than one request |
| Limits.FreshAlways | src/diskBench.c:69-95 | while submissions go on the slots never used are the first in the ring, in order; with a full queue inside the limit it is never exceeded |
| Limits.LimitHoldsIff | src/diskBench.c:73-77 | requests of one size respect the limit on all schedules if and only if depth times size is within it |
| Service.Drainable | src/queue.c:180-184 | from every reachable state the platform can finish all that is in flight, unless a read it finishes raises the alarm; with only writes in flight none does |
| Buffers.ShareIsLargest | src/queue.c:262-265 | the share of a slot is the largest number of whole pages that all slots can have |
| Buffers.BufferParts | src/queue.c:262-271 | the parts of the I/O buffer are whole pages and sectors and lie inside it |
| Buffers.Apart | src/queue.c:267-271 | the parts of two slots do not overlap |
| Buffers.FlightsAfterSubmit | src/queue.c:194-227 | filling the buffer of one slot leaves the data of every other flight as it was |
| Buffers.FlightsAfterMove | src/queue.c:262-271 | so does fetching into it |
| Queue.AsyncQueue.constructor | src/queue.c:242-275 | the new queue is the start state: all slots free, in order, each with the largest share of whole pages of the buffer |
| Queue.AsyncQueue.ReadComplete | src/queue.c:31-101 | counts the read and raises the alarm exactly when the check fails |
| Queue.AsyncQueue.WriteComplete | src/queue.c:103-135 | counts the write and moves the watermark exactly when it begins there |
| Queue.AsyncQueue.Notify | src/queue.c:139-151 | is the completion event: callback, then the slot to the tail of the ring |
| Queue.AsyncQueue.Submit | src/diskBench.c:79-95 | is the submission event: head of the ring out, buffer filled, request handed over and counted; a write of random data leaves the seed 62 draws per sector further, anything else leaves it alone |
| Queue.AsyncQueue.Refuse | src/diskBench.c:74-77 | is the refusal event: the head goes to the tail of the ring and submissions end |
| Queue.AsyncQueue.QueueWait | linux/linux.c:229-250 | some of the flights complete, in any order, by platform events only; at least one if told to block |
| Queue.AsyncQueue.Wait | src/queue.c:157-175 | returns with a free slot, the number of completions, and as many as asked for unless nothing is left; it lets the platform block only while events are missing or no slot is free |
| Queue.AsyncQueue.Barrier | src/queue.c:180-184 | ends with nothing in flight, all slots free, and reports the number that was in flight |
| WorkerLoop.Turn | src/diskBench.c:67-104 | one turn submits exactly one request, the next one of the workload on its seed, or ends the loop if the last size of the slot at the head would pass the limit; it blocks only while no slot is free |
| WorkerLoop.RunWorker | src/diskBench.c:67-106 | the whole thread is a run of the transition system and ends drained; it makes a request in every turn unless an alarm or the limit ends it, and the requests and the seed it leaves are those of the seed it began with |
| TestRun.TestKeeps | src/diskBench.c:44-106 | after any test: watermark safe, limit exceeded by one request at most and not at all under the exact condition, all submitted bytes counted, no alarm unless reads and writes mix on more than one slot with damage within reach |
| TestRun.UniformCount | src/diskBench.c:67-104 | a test with requests of one size makes at least min(turns, limit / size) of them, and exactly as many if a full queue is within the limit |
| TestRun.HarmlessSeedIsQuiet | src/diskBench.c:44-106 | a mixed test raises no alarm on a seed of which no run does |
| TestRun.RunTest | src/diskBench.c:44-106 | the worker thread with its queue achieves all this on its objects, for every workload, with latencies as measured over its events; a mixed test on an intact file raises no alarm |
| Campaign.NoAlarmInSession | src/diskBench.c:1056-1113 | after any tests, at any moment of the next, no error has been reported if each only reads, only writes or has one slot, or the file began intact |
| Campaign.NoAlarmAfterPreparation | src/diskBench.c:998-1113 | after preparing and cutting a file, tests of any kind, mixed ones included, never report an error if two requests fitted into the file; tests that only read, only write or have one slot never do |
| Preparation.AlwaysTilesIff | src/diskBench.c:998-1002 | on every schedule the preparation's writes lie end to end from the start of the file and its counter is where they end, if and only if a full queue of requests fits into the file |
| Preparation.CutIsIntact | src/diskBench.c:1014-1020 | the file cut to that counter is intact from end to end and the watermark lies inside it |
| Preparation.CutIsWritten | src/diskBench.c:998-1020 | on every schedule, full queue or not: the cut file is as long as what was written, at most one request longer than before, what the first pass wrote is intact and the watermark lies inside that |
| Preparation.WatermarkEnds | src/queue.c:127-128 | the watermark is where it began or where some submitted write ends |
| FilePreparation.PrepareFile | src/diskBench.c:998-1020 | the program's preparation of a file sets its size to the bytes written and leaves it so, never raises an alarm, and when two requests fit into the file leaves it intact from end to end and min(turns, filesize / size) requests long |
| SequentialGenerator.Sequential.FillRequest | src/sequential_workload.c:29-47 | the n-th request is the closed form: q whole blocks in order, then block 0 once more |
| SequentialGenerator.SequentialInFileIff | src/sequential_workload.c:36-44 | all requests stay inside the file if and only if it holds one block |
| SequentialGenerator.SequentialTiles | src/sequential_workload.c:36-44 | while there is room the requests tile the file |
| SequentialGenerator.SequentialCovers | src/sequential_workload.c:36-44 | any q + 1 requests in a row touch every whole block |
| Seeds.FirstRandomReads | src/random_workload.c:29-47 | from the seed of a new worker random reads of 4 KB on 8 MB begin with the blocks 1456 and 1435 |
| Seeds.RandomOneMore | src/random_workload.c:29-47 | requests of a random workload on a seed, extended by the request of the next draw, are again those of the seed, and the seed is left as the filled buffer leaves it |
| Seeds.MixedOneMore | src/mixed_workload.c:88-160 | the same for a mixed workload |
| RandomGenerator.Random.FillRequest | src/random_workload.c:29-47 | advances the seed once and takes the block the draw chooses |
| RandomGenerator.RandomFits | src/random_workload.c:37-44 | that block is whole sectors inside the file |
| RandomGenerator.RandomBlocks | src/random_workload.c:37-44 | the blocks that can be drawn are exactly the whole blocks of the file |
| MixedGenerator.DirectionOfDraw | src/mixed_workload.c:97-129 | a draw reads exactly when its lower half is at most 0xBFFFFFFF |
| MixedGenerator.SizeOfDraw | src/mixed_workload.c:102-155 | the size of a draw's request is that whose interval holds the upper half: by the weights around 128 KB for the residues modulo 32 that walk, by those around 4 KB for the others |
| MixedGenerator.PlaceOfDraw | src/mixed_workload.c:102-155 | where the request of a draw lies, and which of the four walks it moves and to where |
| MixedGenerator.Mixed.FillRequest | src/mixed_workload.c:88-160 | one request of the mixed workload and where it leaves the four walks; whole sectors inside the file, no smaller than asked for |
| MixedGenerator.Mixed.constructor | src/mixed_workload.c:175-255 | the reset: smallest table size not below the request size, thresholds filled, walks at zero |
| MixedGenerator.ForwardContiguous | src/mixed_workload.c:135-141 | over any sequence of draws, consecutive requests of a forward walk abut until one would pass the end of the file; that one begins at the start |
| MixedGenerator.BackwardContiguous | src/mixed_workload.c:113-120 | consecutive requests of a backward walk abut until there is no room; then one ends at the end of the file |
| MixedGenerator.WalkBegins | src/mixed_workload.c:106-149 | the first request of a walk begins at the start of the file, or ends at its end |
| MixedGenerator.MixedRunFits | src/mixed_workload.c:88-160 | over any sequence of draws every request is whole sectors inside the file and at most 2 MB, although sizes change under the walks |
| MixedGenerator.NoForwardReads | src/mixed_workload.c:102-112 | the forward sequential read is never taken |
| MixedGenerator.FillThresholds | src/mixed_workload.c:220-252 | the two loops of the reset compute the thresholds |
| Generator.RequestGenerator.OneMoreOnSeed | include/diskBench.h:104-114 | once that request is submitted the requests are again those of the seed |
| Generator.RequestGenerator.FillRequest | include/diskBench.h:104-114 | through the common interface every request is whole sectors inside the file and fits a slot, and is the next one that the workload makes from the seed it began with |
| Weights.ThresholdsGrow | src/mixed_workload.c:246-252 | thresholds do not decrease and end at UINT32_MAX |
| Weights.ChosenIff | src/mixed_workload.c:58-86 | the draws that choose a size are exactly the interval between its neighbours' thresholds, the last size taking the rest |
| Weights.IntervalLength | src/mixed_workload.c:220-252 | each interval is within 2 of the weight's share of the range |
| Weights.WeightsAreQuarters | src/mixed_workload.c:222-236 | the weights are powers of 1/4 by distance from 4 KB, or 128 KB |
| Histogram.IndexForLatency | include/stat.h:46-62 | the shifting loop finds the bucket that a scan over bucket bounds would find, for any number of levels |
| Histogram.BucketMonotone | include/stat.h:46-62 | the index does not decrease with the latency and stays in the table |
| Histogram.RoundTrip | include/stat.h:23-44 | the index of the latency of a bucket is that bucket, in both versions of the way back; beyond the table, the last one |
| Histogram.WithinOneIn128 | include/stat.h:23-62 | both versions are within 1/128 of every latency below the open end of the last bucket |
| Histogram.WithinOneIn128Iff | include/stat.h:23-62 | the exact ranges of latencies for which that holds, one for each version |
| Histogram.SeventeenLevels | include/stat.h:50 | with 17 levels: 1152 buckets, open end at 2^23 |
| Histogram.SeventeenRange | include/stat.h:23-62 | and the error bound holds exactly up to 8421633, or 8421634 for the version the percentiles use |
| Statistics.WelfordStep | src/diskBenchStat.c:79-81 | the update of the squared deviations is exact |
| Statistics.MeanStep | src/diskBenchStat.c:80 | so is that of the mean |
| Statistics.MeanConcat | src/diskBenchStat.c:158-159 | the weighted mean is the mean of both sample sets together |
| Statistics.CombinedVarianceIff | src/diskBenchStat.c:161-164 | the combined variance equals the sample variance of all samples if and only if the means satisfy one equation |
| Statistics.CombinedVarianceIsOff | src/diskBenchStat.c:161-164 | two sets with equal means and variances 2 whose combined figure is 2 while their sample variance is 4/3 |
| Statistics.RankedExists | src/diskBenchStat.c:216-221 | every rank is some latency's |
| Statistics.FirstToReach | src/diskBenchStat.c:216-221 | the bucket where the running count first reaches r is that of the r-th smallest latency |
| Counter.RequestCounter.AddRequest | src/diskBenchStat.c:60-105 | after any stream the fields are the count, totals, extremes, mean, squared deviations and histogram of its samples |
| Counter.InlineBinIff | src/diskBenchStat.c:96-104 | the bin the counter computes itself is the latency's bucket if and only if the latency is below 64 |
| Counter.RequestCounter.Finish | src/diskBenchStat.c:113-120 | sets the sample variance and leaves the mean as it is |
| Counter.RequestCounter.Percentile | src/diskBenchStat.c:208-224 | returns a value in the bucket of the sample of rank ceil(p n / 100), within 1/128 below 2^23; the first or last bucket for an impossible percentage or no samples |
| Counter.PercentileIsRanked | src/diskBenchStat.c:216-223 | why the loop stops at that bucket |
| Counter.Combine | src/diskBenchStat.c:133-204 | the combination counts the samples of both, an empty one adding nothing |
| Counter.SameSamples | src/diskBenchStat.c:133-170 | count, bytes, total, extremes, mean and histogram are those of one counter fed both streams |
| Sweep.ReadyIff | src/diskBench.c:563-590 | a worker can take part in a test exactly when it has the depth and the size, and its largest requests in whole pages fit into its buffer as often as the depth says |
| Sweep.GuardIsEnough | src/diskBench.c:587-591 | the buffer guard of a test implies the assertion in the creation of its queue |
| Sweep.Check | src/diskBench.c:555-598 | the checks let a test start exactly when every active worker can take part |
| Sweep.Average | src/diskBench.c:647-652 | from the fourth test on the circular array averages exactly the last three throughputs |
| Sweep.SweepDepths | src/diskBench.c:545-658 | for any throughputs the tests of one size are all depths from the first up to the first end |
| Sweep.RunTests | src/diskBench.c:544-676 | the sweep ends, whatever is measured, and for one of the two reasons |
| Sweep.TestsAreRunnable | src/diskBench.c:555-598 | every test started has its indices in range and its requests inside their buffers |
| Sweep.TestsAreAll | src/diskBench.c:544-658 | without automatic ends exactly those tests are run |
| Sweep.AutomaticDepths | src/diskBench.c:647-658 | with automatic ends the depths go on exactly while they can be run and, from the fourth on, the throughput is above the mean of the two before it |
| Sweep.GrowingDepths | src/diskBench.c:647-658 | while throughput grows every depth that can be run is tested |
| Sweep.FlatDepths | src/diskBench.c:647-658 | if it never grows there are at most four tests |
| Sweep.AutomaticSizes | src/diskBench.c:660-674 | the same for the lowest and the highest throughput of the sizes, of which one must be above |
| Sweep.GrowingSizes | src/diskBench.c:660-674 | while the lowest or the highest throughput grows every size is tested |
| Sweep.FlatSizes | src/diskBench.c:660-674 | if neither ever grows there are at most four sizes |

## Left out

- Operating system: libaio, Windows completion ports, APR threads, pools and error codes; opening, sizing, flushing and closing files. The platform is the nondeterministic part of the transition system, and error returns that trip an assertion end the run outside the model.
- Short transfers and failed completions: the program does not look at the result of a finished request, and the model lets a request complete only after all its sectors have moved.
- Several workers at once: each has its own file, buffer and queue; the model follows one, and the sweep sees the others only through their parameters.
- `dump_statistics`, XML and text output, parsing of sizes and options, and the final summary.
- Machine integers: byte totals do not wrap, and a limit of UINT64_MAX is no different from any other. The stamp is the one place where 64 bits are modelled.
- Floating-point rounding: means, weights and throughputs are exact reals, so the bounds on thresholds hold up to rounding of the originals.
- Files smaller than one request, and a page size or request size that is not whole sectors: the random workload would divide by zero and the checks look at whole sectors only.
- Mixed workloads with a request size above 2 MB: the search for the smallest size would leave its table.
- Queue.AsyncQueue.QueueWait: a wait may complete more than the platform calls of either system would in one go, and sectors may move more than once; both only add runs.
- MixedAlarms.MixedQuietIff: draws are arbitrary 64-bit numbers, also ones that no seed makes in this order, so the condition is exact for all sequences of draws; MixedAlarms.MixedAlarm and MixedAlarms.SectorsQuietIff likewise. For one seed it is exact only on files of one block (`SeededRuns.SeededQuietIff`).
- StartReads.CanReadStartIff: stops at files of 2^30 smallest blocks. Up to there two neighbouring multiples of the number of blocks lie within the half range of lower halves that always reads, and one of them is no multiple of 32. For larger files it depends on the binary digits of that number which of its multiples fall on reads, and only one direction is proved (`StartReads.StartNotRead`).
- WorkerLoop.RunWorker: the time limit is any number of turns, and the clock is not compared with a deadline.
- Queue.AsyncQueue.Submit: keeps `max_active` as the greatest number in flight after any submission; that this is the peak over the run is not stated over its events.
- Sweep.Check: the reset of the generators among the checks appears only as the request size that `MaxIoSize` is asked about.
- Counter.RequestCounter.AddRequest: the bin that `add_request_to_counter` computes inline is replaced by that of `add_latency_to_histogram` in the same file, since the two agree only below 64 (`Counter.InlineBinIff`).
- Counter.Combine: rates, start and end times, weights, overlap and `max_active` are not modelled, since their fields are missing from the struct; the sum of squared deviations stays zero in a merged counter, as in the original.
