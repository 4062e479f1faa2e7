# Verified model of the heterogeneous SoC's timing engine, runtime and kernels

A Dafny model of the parts of the repository whose correctness is not visible from one function
body, with proofs of what they promise. `dafny verify dfyconfig.toml` checks all of it. Nothing was
executed: the model follows the source text, and the verifier is the only judge.

Four components are modelled.

- **The memory timing engine** (`targets/hetero/dram_core.hpp`): a class that keeps channels, banks
  and a write queue, and emits commands. A ghost trace per channel records every command. The device
  rules (`DramDevice`) are a predicate on traces that does not know the engine; the engine's invariant
  is that every trace obeys them, that its state is what the trace says and holds nothing else back,
  and that the queue refines a flat memory. `DramPrompt` bounds the answers from above: no command that
  is sent could have been sent sooner. Time is an unbounded integer in picoseconds.
- **The offload runtime** (`runtime/mesh`): first as a transition system over single loads and stores
  of host, control core and any number of compute cores (`Offload`), then, for one job, as the bytes
  of main memory and of the cluster's heap (`Staging`, `ClusterJob`), and last as the double-buffered
  keyword-spotting loop on top (`Kws`). `OffloadHost` shows that every call of the host's returns,
  `OffloadJobs` and `JobMeaning` what a job's outcome and its bytes mean.
- **The kernels** (`runtime/common/kernels`, `runtime/snitch`, `runtime/spatz`): the stream registers
  as an address generator (`Ssr`, `Frep`), and the FFT, feature extraction, matrix product and
  convolution over an abstract commutative ring (`Rings`). `Spectrum` and `KernelLaws` hold laws that
  do not repeat the definitions: the energy of a frame, transposition, unit matrices, single taps.
- **The timing cache** (`targets/hetero/timing_cache.cpp`): the stamped tag array against a bounded
  recency list (`LruList`, `TagArray`, `TimingCache`), and when it answers (`CacheLatency`).

Methods follow the loops and in-place updates of the source; each is proved against a specification
function, and the theorems are lemmas about those functions. `Arith`, `Options`, `Rings` and `Tiles`
hold shared vocabulary.

Where the code and its documentation disagree the model follows the code; see "Findings".

## Model

| member | source | states |
|---|---|---|
| `DramMapping.Log2` | targets/hetero/dram_core.hpp:288-293 | The loop stops at the least exponent whose power of two reaches the value. |
| `DramMapping.PowerOfTwoTest` | targets/hetero/dram_core.hpp:295-299 | The bit test the constructor makes is zero exactly for powers of two. |
| `DramMapping.MaskIsRemainder` | targets/hetero/dram_core.hpp:247 | Masking with a power of two less one is taking the remainder, which is how the model writes every mask. |
| `DramMapping.ParseMapping` | targets/hetero/dram_core.hpp:301-325 | A mapping string is accepted exactly if it names known fields, none twice, and every field that takes more than one value; the fields come back in order. |
| `DramMapping.DecodeLoop` | targets/hetero/dram_core.hpp:241-260 | The least-significant-first loop yields the coordinates the field list defines. |
| `DramMapping.Address` | tools/dram/xcheck/run.py:100-104 | The most-significant-first builder yields the encoded burst index times the burst size. |
| `DramMapping.BitLengthIsLog2` | tools/dram/xcheck/run.py:97 | The builder's field widths are the engine's. |
| `DramMapping.DecodeAndAddressInverse` | targets/hetero/dram_core.hpp:241-325 | Decoding and building an address undo each other in both directions, onto the coordinates in range, with a period of the capacity above it. |
| `DramMapping.DecodeInRange` | targets/hetero/dram_core.hpp:309-324 | For an accepted mapping and power-of-two sizes every decoded coordinate is in range. |
| `DramEngine.CheckGeometry` | targets/hetero/dram_core.hpp:170-189 | The constructor's checks pass exactly if the geometry, mapping and water marks are usable. |
| `DramDevice.EveryPairSpaced` | targets/hetero/dram_core.hpp:464-557 | In a legal trace every two commands, however far apart, keep tRC, tRP, write recovery, tRTP, the refresh spacings and the data bus. |
| `DramDevice.FourActivateWindow` | targets/hetero/dram_core.hpp:500-501 | Any five activates of a trace span at least tFAW. |
| `DramDevice.AllPairsTurnaround` | targets/hetero/dram_core.hpp:507-513 | The engine compares with the last transfer only, yet any earlier write and later read keep tWTR_S, any earlier read and later write the shorter tRTW. |
| `DramDevice.BusSlotsDisjoint` | targets/hetero/dram_core.hpp:515-518 | No two transfers of a channel overlap on the data bus. |
| `DramDevice.NothingInsideRefresh` | targets/hetero/dram_core.hpp:327-371 | No row is opened and no data moves between the start and the end of a refresh. |
| `DramChannel.CommitSound` | targets/hetero/dram_core.hpp:464-557 | Committing what was planned appends only commands the device allows; the state still summarises the trace and holds nothing back that no command of it asks for. |
| `DramRefresh.RefreshSound` | targets/hetero/dram_core.hpp:331-353 | One refresh, with the precharge it needs, is legal and keeps the state in step. |
| `DramRefresh.FastForwardExact` | targets/hetero/dram_core.hpp:355-369 | Skipping idle refreshes in one step ends exactly where running them one at a time does, for every tRFC that is not negative. |
| `DramRefresh.RefreshComposes` | targets/hetero/dram_core.hpp:327-371 | Refreshing up to one time and then a later one is refreshing up to the later: none lost, none repeated. |
| `DramBurst.BurstSound` | targets/hetero/dram_core.hpp:559-576 | A burst keeps the whole trace legal, starts after it arrives and after the burst before it, and its column command precedes the next refresh due. |
| `DramBurst.ReplanEndsIff` | targets/hetero/dram_core.hpp:569-573 | Once a burst runs into a refresh the re-planning loop ends if and only if tRFC + tRCD < tREFI. |
| `DramBurst.NeverEnds` | targets/hetero/dram_core.hpp:569-573 | The input that shows it: the first burst of a channel, arriving just before the first refresh is due, runs into a refresh after any number of turns. |
| `DramBurst.UndisturbedBurst` | targets/hetero/dram_core.hpp:562-575 | Without a refresh in the way a burst is its first plan, committed. |
| `DramPrompt.PlanIsEarliest` | targets/hetero/dram_core.hpp:464-520 | Of all times, none before t, at which the device allows the commands a burst needs after what the channel has been sent -- a column command, an activate before it, a precharge before that -- the planned ones are the earliest, command by command. |
| `DramPrompt.RefreshIsEarliest` | targets/hetero/dram_core.hpp:331-353 | The precharge and the start of a due refresh are the earliest the device allows, no row being closed for it before it is due. |
| `DramPrompt.OrderIs` | targets/hetero/dram_core.hpp:476-552 | The time later bursts are kept behind is that of the first command sent, or on an open row the time from which it could be read. |
| `DramPrompt.BurstIsPrompt` | targets/hetero/dram_core.hpp:559-576 | From any sound state: the refreshes due by the start of a burst, round by round those that fall due before the earliest column command then possible, and no others; then the burst, each command as soon as it is allowed. |
| `DramSpacing.ActSpacingIff` | targets/hetero/dram_core.hpp:498-499 | Over all runs of bursts from a fresh channel: all pairs of activates keep tRRD exactly if there is one bank group or tRRD_L <= 2 tRRD_S. |
| `DramSpacing.ColumnSpacingIff` | targets/hetero/dram_core.hpp:507-513 | Over all such runs: all pairs of column commands keep tCCD exactly if there is one bank group or tCCD_L fits in the least two gaps between row hits of different groups. |
| `DramEngine.Engine.constructor` | targets/hetero/dram_core.hpp:191-197 | For every geometry the checks let pass: empty traces, queue and memory; and with one rank and timings that fit, the invariant holds. |
| `DramEngine.Engine.Refresh` | targets/hetero/dram_core.hpp:327-371 | The method, shortcut and all, leaves the channel as one-at-a-time refreshing does, and the other channels alone. |
| `DramEngine.Engine.IssueBurst` | targets/hetero/dram_core.hpp:559-576 | The method emits exactly the specified burst on the decoded channel and answers with its data end; and for every arrival that is not negative that burst is prompt: the refreshes due by its start or by its column command, then its own commands, each at the earliest time the device rules leave, no other channel touched. |
| `DramEngine.Engine.DrainIdle` | targets/hetero/dram_core.hpp:415-433 | Before an arrival queued writes are sent, oldest first, as long as the next one could start and its column command would go out before then: no more and no fewer. The memory seen is unchanged, slots are kept. |
| `DramEngine.Engine.IssueOldest` | targets/hetero/dram_core.hpp:435-440 | The oldest write goes to the DRAM, its slot stays taken until its data end, the memory seen is unchanged. |
| `DramEngine.Engine.Retire` | targets/hetero/dram_core.hpp:442-447 | Exactly the leading writes out by the given time give up their slots. |
| `DramEngine.Engine.Queued` | targets/hetero/dram_core.hpp:373-413 | A burst through the queue, after exactly that drain: a read gets the latest write to its address, merged and forwarded ones are answered when the code says and send nothing, an entering write is held until its slot is free and above the high mark sends the queue down to one below the low mark, a read that misses is one prompt burst and no more. |
| `DramEngine.Engine.Access` | targets/hetero/dram_core.hpp:203-224 | A whole access: bursts in address order, each doing what `Queued` says or, without a queue, being one prompt burst, and answered at the exact time its kind of answer has; the latest of them plus the controller's latency; reads and writes are a flat memory's. |
| `DramEngine.RunsAreSafe` | targets/hetero/dram_core.hpp:203-224 | Whatever was accessed, every channel's trace is legal, every pair of commands spaced, bus slots disjoint, refreshes undisturbed. |
| `DramEngine.RefreshesInTurn` | targets/hetero/dram_core.hpp:331-353 | In any engine the k-th refresh of a channel is the one due at k tREFI and does not start before. |
| `DramEngine.QueueKeeps` | targets/hetero/dram_core.hpp:399-411 | Between accesses: no more writes than slots, queue at most the high mark, addresses distinct, and with arrivals in order a slot is reused only after its data end. |
| `DramRequest.RequestCoveredIff` | targets/hetero/dram_core.hpp:211-216 | Every requested byte lies in a timed burst, for all requests, if and only if a burst is more than one byte. |
| `DramRequest.LastByteMissed` | targets/hetero/dram_core.hpp:211-216 | The input that shows it: the last byte of a granule with one-byte bursts. |
| `DramNominal.MeasureNominal` | targets/hetero/dram_presets.py:170-180 | A fresh engine's read of one granule takes the presets' closed form, for column-lowest and bank-group-lowest mappings, one channel and no refresh due. |
| `HyperRam.TimeIs` | targets/hetero/dram_core.hpp:594-604 | A transfer takes the clocks of its data and, per transaction, the overhead and tRWR: cutting it up costs nothing else. |
| `HyperRam.SelectedShortIff` | targets/hetero/dram_core.hpp:590-592 | No transaction selects the chip longer than tCSM exactly if tCSM has room for the overhead and one clock of data. |
| `HyperRam.WidenedWhole` | targets/hetero/dram_core.hpp:582-584 | For power-of-two granules the masks widen a request to whole, aligned granules; this side takes any granule. |
| `HyperRam.Bus.Access` | targets/hetero/dram_core.hpp:578-607 | The request starts when the bus is free, moves every byte of the widened span once, in transactions tRWR apart, and ends at the closed form. |
| `HyperRam.NominalIs` | targets/hetero/dram_presets.py:163-167 | The closed form is the controller's time and the clocks of command, latency -- twice if fixed -- and data. |
| `HyperRam.PresetNominal` | targets/hetero/dram_presets.py:163-167 | 265 ns for the preset part. |
| `HyperRam.MeasureNominal` | targets/hetero/dram_presets.py:163-167 | A fresh bus reads a granule in the closed form exactly if one transaction takes it, or further ones cost nothing. |
| `Offload.WaitsReturnTheirOwnResults` | runtime/mesh/hes_host.c:123-146 | In every interleaving a completed wait returns the very outcome the cluster reported for that job, cycles included, its results copied to where the job said. |
| `Offload.CoresRunThePostedJob` | runtime/mesh/cluster_main.c:358-412 | In every interleaving a compute core runs only while the control core stands in the barrier, on the job posted with the number being served. |
| `Offload.NoLostWakeUp` | runtime/mesh/cluster_main.c:360-365 | A control core asleep with a job posted has its doorbell pending or about to be rung. |
| `Offload.NoDeadlock` | runtime/mesh/cluster_main.c:358-423 | While a job is outstanding some step that brings it forward can be taken. |
| `Offload.EveryJobEnds` | runtime/mesh/cluster_main.c:358-423 | A bound on such steps: however they interleave with the host's, the job is done by then. |
| `OffloadHost.EveryWaitReturns` | runtime/mesh/hes_host.c:123-146 | From a call of `hes_wait` with a job in flight on, however the steps interleave: once the cluster has had the steps its job takes, five more of the host's return that job's own outcome and leave the host idle. |
| `OffloadHost.EveryPostGoesOut` | runtime/mesh/hes_host.c:81-121 | A post by an idle host with nothing in flight has, after a bounded number of host steps and whatever the others do, published the job asked for, rung the doorbell and set the flag. |
| `OffloadJobs.CoresStayLocal` | runtime/mesh/cluster_main.c:366-412 | In every interleaving a running core has the posted kernel or, exactly if the job is refused, none; on a cluster that needs staging, a kernel's operands are the local copies. |
| `OffloadJobs.OutcomesMean` | runtime/mesh/cluster_main.c:377-421 | Which error a returned wait reports, whether it was staged, and what had been copied back by then, from the descriptor and the heap alone. |
| `Staging.SlicesPartition` | runtime/mesh/cluster_main.c:81-89 | The slices of n items follow one another, cover everything and differ by one at most. |
| `Staging.SlabFits` | runtime/mesh/cluster_main.c:166-185 | A core's scratch slab is aligned, in the heap, below the staged operands and large enough. |
| `Staging.SlabsApart` | runtime/mesh/cluster_main.c:177-184 | The slabs of two cores are disjoint. |
| `Staging.CopiesApart` | runtime/mesh/cluster_main.c:198-207 | Staged copies are aligned, pairwise disjoint, above every slab and inside the heap. |
| `Staging.FitsIff` | runtime/mesh/cluster_main.c:198-207 | Staging is refused exactly if the last operand would end past the heap. |
| `Staging.SlicedIsShare` | runtime/mesh/cluster_main.c:233-324 | The pointer offsets and extents of a core's call denote exactly its share of the job. |
| `Staging.Relocated` | runtime/mesh/cluster_main.c:187-217 | Arguments that point to copies of the same bytes denote the same call. |
| `Calls.ShareComputesItsPart` | runtime/mesh/cluster_main.c:228-324 | The kernel run on a share computes, element by element, its part of the whole result. |
| `ClusterJob.Cluster.Slice` | runtime/mesh/cluster_main.c:81-89 | The method returns the bounds of that partition. |
| `ClusterJob.Cluster.ReserveScratch` | runtime/mesh/cluster_main.c:166-185 | Base, stride and cursor are those of the layout, a zero base if the slabs do not fit. |
| `ClusterJob.Cluster.StageIn` | runtime/mesh/cluster_main.c:191-217 | It succeeds exactly if there are operands and all fit; then inputs are copied and arguments rewritten, otherwise nothing changes. |
| `ClusterJob.Cluster.RunCores` | runtime/mesh/cluster_main.c:407-409 | Any number of cores storing in any order leave, outside their scratch, what one direct call leaves. |
| `ClusterJob.Cluster.StageOut` | runtime/mesh/cluster_main.c:219-226 | Every output is copied to where the mailbox's arguments say. |
| `ClusterJob.Cluster.Serve` | runtime/mesh/cluster_main.c:366-421 | From descriptor to result: outside the heap an accepted job leaves memory as one direct call does; a refused one leaves it alone, except one refused for scratch after staging. It is refused unstaged exactly if the cluster needs staging and the operands are not to be staged or do not fit, and what is staged runs on pointers into the heap only. |
| `ClusterJob.DecidedMeans` | runtime/mesh/cluster_main.c:377-401 | The decision on a job as conditions on descriptor and heap, each error if and only if. |
| `JobMeaning.MatMulByte` | runtime/mesh/cluster_main.c:236-249 | Every byte a MatMul job leaves, from the words of memory its arguments point to. |
| `JobMeaning.GemmByte` | runtime/mesh/cluster_main.c:251-273 | The same for Gemm with its C, for all four transpose choices. |
| `JobMeaning.ScratchHoldsFrame` | runtime/common/mfcc.h:36-39 | A core's scratch is as large as the spectrum and the mel energies of the tables the job points to. |
| `ClusterJob.RefusedYetStagedIff` | runtime/mesh/cluster_main.c:377-401 | That exception occurs exactly if the job is to be staged, needs scratch, the slabs do not fit and its operands alone do. |
| `ClusterJob.OneFrameRefused` | runtime/mesh/cluster_main.c:377-401 | A concrete heap and one-frame job that is staged and refused. |
| `ClusterJob.RefusedJobOverwrites` | runtime/mesh/cluster_main.c:413-416 | That job's output in main memory is overwritten with what the heap held. |
| `Kws.Board.Run` | runtime/mesh/kws_main.c:120-240 | The loop, overlapped or not: the exact number of failures, right scores when there are none, and exactly when the run passes; every clip whose own front-end job went well is classified from its own features. |
| `Kws.TalliesCount` | runtime/mesh/kws_main.c:136-196 | The tallies are the numbers of clips classified right, agreeing with the reference, and with a failed front-end job. |
| `Kws.GapIsDistance` | runtime/mesh/kws_main.c:156-161 | What is compared with the tolerance is the distance between a feature and the expected one, whichever is larger. |
| `Kws.OverlappedIsSerial` | runtime/mesh/kws_main.c:136-196 | Whatever the clusters store and when, both builds classify each soundly delivered clip from the same features, and alike unless a network node wants the front-end's cluster; undisturbed they report the same, and the overlapped one passes exactly if the serial one does and no node wants that cluster. |
| `Kws.SharedClusterExample` | runtime/mesh/kws_main.c:136-196 | Two clips and one node on the front-end's cluster: one failure overlapped, none serial. |
| `Ssr.Mover.Loop` | runtime/snitch/snitch_ssr.h:76-125 | The delta strides modulo 2^32 that the macros write configure the nest they are given. |
| `Ssr.Mover.Read` | runtime/snitch/snitch_ssr.h:131-134 | Pointing a configured stream at memory starts it at element 0. |
| `Ssr.Mover.Next` | runtime/snitch/snitch_ssr.h:76-134 | Element e of a stream is at base plus the sum of index times stride of iteration e / repeat, in nest order, and the stream ends with the nest. |
| `Frep.Region` | runtime/snitch/snitch_ssr.h:146-162 | n replays of a body of multiply-adds: accumulator u folds the products of every body-length-th pair of elements, the streams keep their place. |
| `Fft.BitReverse` | runtime/common/kernels/mfcc_fp32.c:29-35 | The loop reverses the low bits. |
| `Fft.RevInvolution` | runtime/common/kernels/mfcc_fp32.c:51-61 | Reversing twice is the identity, so the swap loop is a permutation in place. |
| `Fft.FftRadix2` | runtime/common/kernels/mfcc_fp32.c:44-85 | Over any commutative ring, with twiddles w^k and w^(n/2) = -1, the arrays hold exactly the discrete Fourier transform of what they held. |
| `Mfcc.Portable` | runtime/common/kernels/mfcc_fp32.c:87-149 | The output holds the features of every frame as sums defined without loops, nothing else is written. |
| `Spectrum.PowerIsNorm` | runtime/common/kernels/mfcc_fp32.c:116-121 | The power of a bin is its transform times the conjugate. |
| `Spectrum.FrameEnergy` | runtime/common/kernels/mfcc_fp32.c:87-121 | Over a frame of n samples the powers of all n bins add up to n times the squares of the windowed samples. |
| `Spectrum.PickedBin` | runtime/common/kernels/mfcc_fp32.c:123-147 | With a band of coefficient one on a single bin and a cosine row that takes that band alone, the cepstrum is the logarithm of that bin's power. |
| `Spectrum.PickedFeature` | runtime/common/kernels/mfcc_fp32.c:123-147 | And that stands in the output of both kernels, at its frame and column. |
| `Spectrum.FourSamples` | runtime/common/kernels/mfcc_fp32.c:116-147 | One turn of a sine in four samples: the bin is -2i, the feature 4. |
| `MfccSsr.MelEnergyOf` | runtime/snitch/kernels/mfcc_fp32_ssr.c:104-145 | Four lanes and a scalar tail give the plain sum, for any length and offset. |
| `MfccSsr.FourCepstra` | runtime/snitch/kernels/mfcc_fp32_ssr.c:207-229 | One streamed region gives four cepstra at once. |
| `MfccSsr.Streamed` | runtime/snitch/kernels/mfcc_fp32_ssr.c:147-248 | The streamed kernel's output holds the portable kernel's features if and only if there is a mel band or they were zeros already; stream 1 is left without repeats if found so. |
| `MfccSsr.NoBandsExample` | runtime/snitch/kernels/mfcc_fp32_ssr.c:157-161 | An input for which the two kernels differ. |
| `Gemm.FoldIsOutput` | runtime/snitch/kernels/gemm_fp32_ssr.c:47-124 | Accumulating from C is the product plus C. |
| `KernelLaws.TransposedA` | runtime/snitch/kernels/gemm_fp32_ssr.c:47-124 | A product with A transposed is the plain product of the transposed matrix. |
| `KernelLaws.TransposedB` | runtime/snitch/kernels/gemm_fp32_ssr.c:47-124 | The same for B. |
| `KernelLaws.TimesUnit` | runtime/snitch/kernels/gemm_fp32_ssr.c:47-124 | A times the unit matrix is A. |
| `KernelLaws.UnitTimes` | runtime/snitch/kernels/gemm_fp32_ssr.c:47-124 | The unit matrix times B is B. |
| `KernelLaws.PlusC` | runtime/snitch/kernels/gemm_fp32_ssr.c:47-124 | C is added element by element. |
| `GemmSsr.GemmStreamed` | runtime/snitch/kernels/gemm_fp32_ssr.c:47-124 | For every shape the streamed path takes and all four transpose choices, Y = A B (+ C) and nothing else is written; both streams end exactly used up. Stream 1 must be found, and is left, without repeats. |
| `GemmRvv.GemmVector` | runtime/spatz/kernels/gemm_fp32_rvv.c:97-110 | The same for strips of any lengths the vector unit may grant. |
| `ConvSsr.Scalar` | runtime/snitch/kernels/conv2d_fp32_ssr.c:101-121 | The scalar loops compute a pixel as the sum over channels, rows and columns. |
| `KernelLaws.PicksInput` | runtime/snitch/kernels/conv2d_fp32_ssr.c:36-122 | A filter of a single tap picks one input: of its channel, so far down and across from where the window starts. |
| `KernelLaws.PlusBias` | runtime/snitch/kernels/conv2d_fp32_ssr.c:36-122 | A pixel with bias is the pixel without, plus its filter's bias. |
| `ConvSsr.ConvStreamed` | runtime/snitch/kernels/conv2d_fp32_ssr.c:36-122 | Streamed groups of four filters and scalar leftovers give every pixel of every filter, bias included, and write nothing else. Stream 1 must be found, and is left, without repeats. |
| `LruList.Inclusion` | targets/hetero/timing_cache.cpp:322-369 | Over any trace, with or without write-allocate, more ways hold a superset of lines and never miss more. |
| `LruList.NoMissIff` | targets/hetero/timing_cache.cpp:371-403 | An access misses nowhere exactly if all its lines were resident. |
| `LruList.SpanResidentIff` | targets/hetero/timing_cache.cpp:438-476 | After an allocating access all its lines are resident exactly if they number at most sets times ways. |
| `LruList.LongSpanExample` | targets/hetero/timing_cache.cpp:438-476 | Two lines through a cache of one: the first is gone. |
| `TagArray.HitTouches` | targets/hetero/timing_cache.cpp:327-334 | A fresh stamp moves the line to the front of the recency list. |
| `TagArray.MissTouches` | targets/hetero/timing_cache.cpp:341-366 | Replacing the way with the least stamp is putting the line in front and dropping the oldest beyond the ways. |
| `TimingCache.Cache.constructor` | targets/hetero/timing_cache.cpp:299-310 | After reset the cache is empty and in step with the empty run. |
| `TimingCache.Cache.Lookup` | targets/hetero/timing_cache.cpp:322-369 | The stamped array moves as the recency lists; the result says exactly whether the line was there and, if so, when its last refill lands; a refill is stored with its landing time; a dirty line that goes becomes a victim. |
| `TimingCache.Cache.Probe` | targets/hetero/timing_cache.cpp:371-403 | True exactly if every line of the access is resident; nothing changes. |
| `TimingCache.Cache.MarkDirty` | targets/hetero/timing_cache.cpp:507-518 | The line is dirty if it is held; a change from clean is counted once. |
| `TimingCache.Cache.Access` | targets/hetero/timing_cache.cpp:405-505 | The lists move as the run of lines says, hits and misses are counted, latency, port and landing times are exactly `CacheLatency.AccessTimed`, and a write-back write leaves all its lines dirty exactly if they number at most sets times ways. |
| `TimingCache.Cache.TouchedLines` | targets/hetero/timing_cache.cpp:435-438 | The lines an access touches are those that hold some byte of it. |
| `TimingCache.LatencyIff` | targets/hetero/timing_cache.cpp:432-497 | The latency is at most t exactly if by then the lookup is through, every line that hit has landed, so has the last refill, and what the store buffer cannot hide has gone out. |
| `CacheLatency.PortTaken` | targets/hetero/timing_cache.cpp:444-447 | m refills of an access take the port for m refill times, from when it is free. |
| `CacheLatency.LandsAt` | targets/hetero/timing_cache.cpp:444-475 | The m-th line to miss lands when the port is through with m refills and the next level and the miss have taken their time; no other landing time changes. |
| `CacheLatency.ReadyIff` | targets/hetero/timing_cache.cpp:438-476 | The lines are ready by t exactly if every line that hit and the last refill have landed by t. |
| `CacheLatency.PlainHit` | targets/hetero/timing_cache.cpp:449-456 | A read of resident, landed lines takes the hit latency and leaves the port alone. |
| `TimingCache.Cache.FlushVictims` | targets/hetero/timing_cache.cpp:541-582 | Every victim is fetched unnoticed, written once as a real access of one line, and counted; the bytes of each write are exactly those of that line. |
| `TimingCache.TagsDistinct` | targets/hetero/timing_cache.cpp:322-369 | No line is held twice. |
| `TimingCache.BalanceCounts` | targets/hetero/timing_cache.cpp:541-581 | Clean-to-dirty transitions equal lines written back plus lines dirty now. |
| `TimingCache.Cache.RequestWriteback` | targets/hetero/timing_cache.cpp:584-635 | The next level times one read exactly when a miss is recorded here and one write per line written back, covering exactly the bytes of the lines given up, each once; the dirty balance is kept; the latency is exactly the access's. |
| `TimingCache.Cache.Request` | targets/hetero/timing_cache.cpp:637-694 | In write-through mode the reads the next level times are exactly this cache's missing reads; stores always go down timed; the latency is exactly the access's. |
| `TimingCache.MoreWays` | targets/hetero/timing_cache.cpp:405-505 | Two caches driven by the same requests: the one with more ways holds the other's lines and missed no more. |

## Findings

What the proofs show the code not to do, each with the input or the exact condition.

- **One-byte bursts miss the last byte.** `access` loops while below the last byte instead of past it
  (`targets/hetero/dram_core.hpp:212-216`). `DramRequest.RequestCoveredIff`, `LastByteMissed`.
- **The re-planning loop of `burst` need not end.** If a burst runs into a refresh and
  tRFC + tRCD >= tREFI, it goes round for ever (`targets/hetero/dram_core.hpp:569-573`).
  `DramBurst.ReplanEndsIff`, `NeverEnds`.
- **tRRD_L and tCCD_L between commands that are not neighbours.** They are compared with the last
  command only. With several bank groups the first fails for some run exactly if tRRD_L > 2 tRRD_S,
  the second exactly if tCCD_L exceeds the least two gaps row hits of different groups can have.
  `DramSpacing.ActSpacingIff`, `ColumnSpacingIff`; the failing runs are three reads of closed banks
  and five bursts to two rows, from a fresh channel. All presets keep clear of both.
- **A HyperRAM chip select longer than tCSM.** If tCSM has no room for the overhead and one clock, a
  transaction of one clock is made all the same (`targets/hetero/dram_core.hpp:591-592`).
  `HyperRam.SelectedShortIff`. And the closed form of the presets holds only for granules one
  transaction takes: `HyperRam.MeasureNominal`.
- **A refused job can overwrite its output.** When scratch does not fit but staging does, the job is
  refused and `stage_out` still copies (`runtime/mesh/cluster_main.c:394-416`).
  `ClusterJob.RefusedYetStagedIff`, `RefusedJobOverwrites`.
- **A network node that wants the front-end's cluster** makes the overlapped keyword-spotting run
  fail, since its post is refused while a job is in flight (`runtime/mesh/hes_host.c:86-95`).
  `Kws.OverlappedIsSerial`, `SharedClusterExample`.
- **No mel bands.** The streamed feature kernel returns at once, leaving the output as it was, where
  the portable one writes zeros (`runtime/snitch/kernels/mfcc_fp32_ssr.c:159-161`).
  `MfccSsr.Streamed`, `NoBandsExample`.
- **A write of more lines than the cache has** does not leave them all dirty: the first are evicted
  again before they are marked (`targets/hetero/timing_cache.cpp:478-485`). `TimingCache.Cache.Access`,
  `LruList.LongSpanExample`.
- **Stream 1's repeat count is taken for granted.** The matrix product and the convolution set that of
  stream 0 only (`runtime/snitch/kernels/gemm_fp32_ssr.c:62`, `conv2d_fp32_ssr.c:60`); the feature
  kernel sets both. They are right because it is 0 after reset and every kernel leaves it so:
  `GemmSsr.GemmStreamed`, `ConvSsr.ConvStreamed`, `MfccSsr.Streamed`.

## Left out

Timing engine:

- DramEngine.Engine.Access: one rank only, as every preset has; across interleaved ranks tRRD is compared with the last ACT alone. Durations are not negative and tRFC + tRCD < tREFI. The code needs these and does not check them (`DramEngine.Runs`).
- DramPrompt.PlanIsEarliest: for times that are not negative, and timings that do not reach from the code's minus infinity to time 0 (`NeverIsFar`); before time 0 its initial values hold commands back that the device would allow.
- DramPrompt.RefreshIsEarliest: a precharge sent before the refresh is due, which the device would allow, is not the code's choice.
- DramSpacing.ActSpacingIff: stated for two or more banks per group, since a single bank per group cannot be opened again soon enough for the failing run; and that run needs room before the first refresh and timings that do not reach back to the code's minus infinity.
- DramSpacing.ColumnSpacingIff: its failing run needs the same kind of room, and long spacings no shorter than the short ones.
- Masks: the widened span is written with division; that masking is the same for powers of two is `MaskIsRemainder`. 64-bit overflow of addresses and times is not modelled.
- Which of several faults in a mapping string is reported; the text of exceptions.
- Energy and area figures, printed statistics, and the simulator wrapper around the engine.

Offload runtime:

- hes_wait giving up after its heartbeats, and job numbers wrapping around at 2^32.
- `trap_cause`, and with it the `ok` field of a result: no kernel traps in the model. A wait's result is the error, the staged flag and the copied operands.
- The start-up handshake (`hes_engine_init`, the alive mask and the magic word): runs begin with both sides at job number 0.
- Weak memory: steps interleave as single loads and stores in one order. The DMA is one step per operand; that it has finished at `hes_dma_wait` is taken for granted.
- wfi returns when the doorbell is pending; wake-ups by interrupts from elsewhere are not modelled.
- Job sizes that overflow 32 bits, and operands of a job that overlap one another or the heap: `InMain` and `Asked` say what a job must be. MFCC jobs mean what they say for power-of-two FFT lengths, the only ones the kernel takes.
- `Gemm` jobs whose C is the null pointer: a job's operands are taken to be there. The kernels themselves are proved with and without C.
- Kws.Board.Run: whether a front-end job fails, and which features a clip has, are given per clip (`Clip.faulty`, `Clip.features`), not derived from the job theorems of `ClusterJob` and `MfccSsr`. The network is a function of its input and the list of engines its nodes use. Timers, cycle counts and prints are left out.

Kernels:

- Spectrum.FrameEnergy: asks that the root of unity has length one, as a twiddle cos - i sin does; the ring alone does not say so.
- Arithmetic is that of a commutative ring: rounding, fused multiply-add and the order of float sums are not modelled. The logarithm with its floor is an arbitrary function.
- The portable generic matrix and convolution kernels, to which small or unusual shapes are passed on, are not part of this model; the entry points' tests for them are the shapes required here.
- Ssr.Mover.Loop: the four macros are one method over a nest of one to four loops. The generator they drive follows the header's description of it, as its hardware is not part of this model.
- FREP's instruction buffer, instruction encodings, and streams for writing, which no kernel uses.

Timing cache:

- Lines are numbered so that the marker for an empty way is no line, which holds of every 64-bit address with lines of two bytes or more; set masks are written as remainders.
- A next level that answers asynchronously: in write-back mode it is a fatal error in the source, in write-through mode it only changes how the latency is passed on. Power accounting and traces.

Not modelled at all: board wiring and address maps, network mapping and code generation, training and audio synthesis, the graphical interface, sweeps, reports and plots. They hold no invariant comparable to the ones above.
