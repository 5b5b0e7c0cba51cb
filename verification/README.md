# Models of the simulator's support code

This project models the parts of the gem5 support code whose correctness is not obvious from
reading one function, and proves what they promise for all inputs, all runs or all reachable
states.  `dafny verify dfyconfig.toml` checks everything.

Each part has a description on values (functions and predicates), the code in its own form (classes
with mutable fields, methods with loops) proved against that description, and the theorems.

- **Self-resizing histogram** (`HistogramSpec`, `HistogramTheorems`, `HistogramPlaces`, `HistogramOdd`,
  `HistogramTight`, `HistStor`).  A row of buckets is folded in place when a sample falls outside it. All three folds are
  instances of one fold with an offset, so the theorems are about that fold and about whole runs of
  samples. Converting a histogram to negative values sets the lower end to minus the upper one, which
  moves the contents by half a bucket. `HistogramPlaces` gives the place of every sample after any run
  in closed form, and from it which runs are still recounted exactly; runs of non-negative samples
  always are. With an odd bucket count some folds drop bucket 0; `HistogramOdd` gives the places then,
  and which samples are lost. `HistogramTight` says that a row never grows further than its samples ask.
- **MT19937** (`Rings`, `Words`, `Series`, `ShiftRegister`, `MersenneTwister`, `MtReference`, `RandomMt`,
  `RandomRun`, `BoundedRandom`).  The
  in-place regeneration of 624 words is the unbounded recurrence of section 26.5.3.2 of ISO/IEC 14882:2011; the
  state never becomes zero because every step can be undone; bounded draws are uniform.  `MtReference` gives
  every step in integer arithmetic and the reference words of the usual seed.
- **Critical-path annotator** (`AnnotateLog`, `AnnotateHistory`, `AnnotateFile`, `ByteQueue`,
  `AnnotateQueue`, `QueueTheorems`, `AnnotateNames`, `AnnotateStacks`, `CpaSpec`, `CpaTheorems`, `CpaModel`,
  `CpaTidy`, `Cpa`, `CpaPlay`, `CpaLines`, `CpaRuns`, `CpaLinks`, `CpaBackLinks`, `CpaNests`, `CpaBytes`,
  `CpaEffects`, `CpaCalls`, `CpaStates`, `CpaOrder`).
  Records are named by their number in order of creation, so that the pending list, the queues and the table of waiting
  links share them as the pointers of the original do.  `CpaModel` says what every call does to plain
  lists: the lines of the file, one queue of bytes for each queue number, the tables and the stacks.
  The class `Cpa` with its shared records, runs and counters is proved to do the same (`Abs()` is the
  plain description, and `Valid()` is what every run keeps), and `CpaPlay` carries this through every
  run of calls.  The theorems about runs are then about the model.  `CpaEffects` says once more what each
  call does, in the numbers and lists of the output and without the functions of the model, and
  `CpaCalls` proves that the model does that.
- **Decode-block compiler** (`DecodeSpec`, `IsaParser`, `DecodeTheorems`, `DecodeFormats`, `DecodeLabels`).  A syntax tree of decode
  blocks, the parser actions with their two stacks, and the meaning of the generated switches with
  fall-through.  No distinctness of case labels is assumed: source and switches both take the first.
- **gdb remote framing** (`GdbSpec`, `RemoteGdb`, `GdbTheorems`, `GdbWire`).  Packets, acknowledgement and
  retransmission, and the hexadecimal coding of blocks, as in the Overview section of the appendix
  "gdb Remote Serial Protocol" of *Debugging with GDB*.
- **Arithmetic and index code** (`Bits`, `IntMath`, `WheelSearch`, `Primes`, `ChunkSpec`, `ChunkTheorems`,
  `ChunkGenerator`, `CircleRing`, `CircleBuf`, `CirclePlay`, `RangeMap`).

Where the code does not do what its comments or names suggest, the model follows the code, a lemma
gives an input that shows it, and another gives the exact condition:

- `isPrime` accepts every number below 25 and many multiples of 2 and 3 (`ThirtyThree`, `RightIff`);
  `prevPrime` steps out of phase for two thirds of its arguments (`ThirtyFive`, `PrevPrimeRightIff`).
- `roundUp` to the alignment 2^31 sign-extends it (`RoundUpLost`, `RoundUpTo2Pow31`), so chunks of that
  size can be lost or lie elsewhere (`HugeLost`, `ChunksCover`).
- `range_map::find` looks at one entry only, so a range query can miss an overlapping successor, and
  `insert` then breaks disjointness (`GapOverlooked`, `FindRange`, `InsertKeepsDisjoint`).
- A write into the circular buffer that goes round its end can set the read position back to
  characters already read (`OutOfStep`, `WroteInStepIff`); a read with nothing unread delivers some
  (`EmptyDelivers`, `DeliversOldestIff`) and can put the positions out of step (`TookInStepIff`); and the
  read position can come to lie behind the buffer, so that the next read copies from outside it
  (`OutsideReached`, `InsideIff`, `Play`).
- A nested decode block is not followed by a `break` (`NestedBlockRunsOn`, `SwitchesMeanSource`).
- A packet whose third character is a colon is taken to carry a sequence number (`ColonThird`,
  `DeliveredExactlyOnce`), a character that is not a digit counts as -1 in a checksum
  (`BadDigitAccepted`, `ChecksumDamage`), and a packet cut off by a character that became an end
  character can be accepted (`CutOffAccepted`, `PayloadDamage`).
- `recv` is called with a limit as large as its buffer, and writes a terminator behind it when that many
  characters arrive without an end character (`OverrunReached`, `OverrunIff`); and a colon left over
  from an earlier packet makes it pass a negative length to `memcpy` (`UndefinedReached`, `UndefinedIff`).
- The table of symbols that are not to become states holds its names in quotes and with a terminator, so
  that nothing is ignored (`SpinNotIgnored`, `IgnoredRightIff`).
- Histograms with an odd bucket count lose samples (`OddLoses`, `ConservesIffEven`, `RunTotal`,
  `OddRunExactIff`), and those with an even one count some in the next bucket (`EvenShifts`,
  `RunExactIff`).

## Model

| member | source | states |
|---|---|---|
| HistogramSpec.FoldConserves | src/base/statistics.cc:274-355 | a fold with any offset keeps the sum of the buckets |
| HistogramSpec.FoldLosses | src/base/statistics.cc:274-355 | exact conservation law of each fold: grow_up loses nothing, grow_convert loses bucket 0 for an odd size only, grow_out for a size of 3 modulo 4 only |
| HistogramSpec.IndexInRange | src/base/statistics.hh:1525-1529 | once a value fits, the computed index is in range and its bucket's nominal range holds the value |
| HistogramSpec.Fitted | src/base/statistics.hh:1508-1523 | the growth loops end for every value, keep max = min + (size - 1) * bucket_size and leave a row that holds the value; that they stop there is HistogramTight.EveryRunTight |
| HistogramSpec.Run | src/base/statistics.hh:1505-1535 | the row's shape holds in every reachable state, for every bucket count from 2 on |
| HistogramTheorems.EveryRunExplained | src/base/statistics.hh:1505-1535 | in every run of samples of any sign each counter counts samples that lie at most half a bucket below its nominal range and never above it; with an even bucket count no sample is lost |
| HistogramTheorems.NonNegativeRunsExact | src/base/statistics.cc:335-355 | in every run of non-negative samples each bucket equals a recount of the whole log over its nominal range |
| HistogramTheorems.CumulativeBracket | src/base/statistics.cc:274-333 | for every even bucket count the sum of the first i buckets lies between two counts of the log half a bucket apart |
| HistogramTheorems.RunTotal | src/base/statistics.hh:1505-1535 | in every run, with any bucket count, the buckets add up to the number of samples less what bucket 0 held at each fold that drops it; with an even count nothing is lost |
| HistogramTheorems.MinZeroIff | src/base/statistics.hh:1508-1523 | in every run the histogram still begins at 0 if and only if no sample was negative |
| HistogramTight.EveryRunTight | src/base/statistics.hh:1508-1523 | in every run the bucket size is a power of two and no larger than was asked for: it is 1, or the row of half that bucket size does not hold every sample, or the only fold was the one that makes room for negative values |
| HistogramTight.LeastSize | src/base/statistics.hh:1515-1518 | in every run of non-negative samples the bucket size is the least power of two with which the buckets hold them all |
| HistogramTheorems.OddLoses | src/base/statistics.cc:312-333 | for every odd bucket count two samples of which one is lost |
| HistogramTheorems.EvenShifts | src/base/statistics.cc:312-333 | for every even bucket count two samples of which one is counted outside its nominal range |
| HistogramTheorems.ConservesIffEven | src/base/statistics.cc:274-355 | all runs conserve the number of samples if and only if the bucket count is even |
| HistogramTheorems.FoldExactIff | src/base/statistics.cc:274-355 | what lies in the nominal range of its bucket still does after grow_up, and after grow_out with an odd bucket count; after the other folds if and only if the index has the right parity |
| HistogramPlaces.EveryRunLocated | src/base/statistics.hh:1505-1535 | in every run with an even bucket count, bucket i holds exactly the samples that are i buckets of the final size away from their origin, which is 0 or half the bucket size of the time they were counted |
| HistogramPlaces.AstrayIff | src/base/statistics.cc:274-333 | such a sample is counted in its nominal bucket or in the next one, the latter exactly if it lies between its origin and half a bucket, in buckets of the final size |
| HistogramPlaces.RunExactIff | src/base/statistics.hh:1505-1535 | in every run of samples with positive weights and an even bucket count, each bucket equals a recount of the log over its nominal range if and only if no sample lies there, which needs a negative sample in the run |
| HistogramOdd.EveryOddRunLocated | src/base/statistics.hh:1505-1535 | in every run with an odd bucket count, bucket i holds exactly the samples that are not lost and are i buckets of the final size away from their origin; a sample that was there when room was made for negative values is counted from one bucket of that time below 0, others from 0; a sample is lost in bucket 0 at the first fold after it was counted that drops it |
| HistogramOdd.LostIs | src/base/statistics.cc:274-333 | what bucket 0 held at the folds that drop it is what the lost samples weigh |
| HistogramOdd.RightIff | src/base/statistics.cc:274-333 | a sample that is not lost is in its nominal bucket if and only if no bucket begins between it and what is counted of it, and above it otherwise |
| HistogramOdd.OddRunExactIff | src/base/statistics.hh:1505-1535 | in every run of samples with positive weights and an odd bucket count, each bucket equals a recount of the log over its nominal range if and only if no sample is lost and that is so of none |
| HistogramTheorems.MomentsOfRun | src/base/statistics.hh:1530-1534 | sum, squares and samples are those of the log in every run |
| HistStorage.HistStor.Reset | src/base/statistics.hh:1578-1597 | the histogram is as new |
| HistStorage.HistStor.GrowUp | src/base/statistics.cc:335-355 | the in-place loop computes the fold with offset 0 and doubles the range |
| HistStorage.HistStor.GrowConvert | src/base/statistics.cc:312-333 | the in-place loop computes the fold that makes room for negative values |
| HistStorage.HistStor.GrowOut | src/base/statistics.cc:274-310 | the two in-place loops compute the fold about the middle |
| HistStorage.HistStor.GrowToFit | src/base/statistics.hh:1508-1523 | the growth branch and loops leave the row that the theorems are about: it holds the value, and nothing smaller holds all samples of the run |
| HistStorage.HistStor.AddSample | src/base/statistics.hh:1505-1535 | one sample leaves the row described by Sampled; the index assertion holds |
| HistStorage.HistStor.Record | src/base/statistics.hh:1505-1535 | a whole log of samples leaves the row that the run theorems are about |
| ShiftRegister.StepForthAndBack | src/base/random_mt.cc:122-138 | one twist step is undone by an explicit step back |
| ShiftRegister.StepBackAndForth | src/base/random_mt.cc:122-138 | and the other way round |
| ShiftRegister.StateStep | src/base/random_mt.cc:122-138 | consecutive states of the recurrence are related by one twist step |
| ShiftRegister.NeverEntered | src/base/random_mt.cc:122-138 | a state that steps back to itself is reached only from itself |
| ShiftRegister.WritesTrace | src/base/random_mt.cc:70-113 | the cyclic writes of array seeding form one sequence in which each write depends on the previous one and the one a round before |
| ShiftRegister.SequenceRecurs | src/base/random_mt.cc:122-138 | the infinite sequence of words obeys the recurrence x[n+624] = x[n+397] xor twist(x[n], x[n+1]) |
| ShiftRegister.BlocksFollow | src/base/random_mt.cc:122-138 | consecutive blocks of 624 words are related as one regeneration relates them |
| ShiftRegister.SeedNotConstant | src/base/random_mt.cc:49-64 | seeding never gives a constant state |
| ShiftRegister.KeyNotConstant | src/base/random_mt.cc:70-113 | nor does seeding by a key, whose first word has its top bit set |
| MersenneTwister.MtLaws | src/base/random_mt.cc:122-138 | the 32-bit operations of MT19937 obey the laws of the shift register: xor cancels, the conditional shift is undone, halves join |
| MersenneTwister.NeverZero | src/base/random_mt.cc:122-138 | a non-zero 19937-bit state stays non-zero in every run |
| MersenneTwister.NeverMerge | src/base/random_mt.cc:122-138 | different states stay different in every run |
| MersenneTwister.TemperBijective | src/base/random_mt.cc:142-148 | tempering and an explicit inverse undo each other, in both orders |
| MersenneTwister.EveryRunNonZero | src/base/random_mt.cc:49-113 | from any seed and any non-empty key the state is non-zero after any number of steps |
| Words.ValueWrap | src/base/random_mt.cc:49-64 | a number kept in 32 bits is the number modulo 2^32 |
| MtReference.SeedNumbers | src/base/random_mt.cc:49-64 | word 0 is the seed, and word i is 1812433253 q + i modulo 2^32 in integer arithmetic, where q is word i - 1 with each of its last two bits flipped exactly if the corresponding one of its first two bits is set |
| MtReference.SeedReference | src/base/random_mt.cc:49-64 | the first words of the seed 5489 |
| MtReference.KeyNumbers | src/base/random_mt.cc:70-113 | every write of the two loops of array seeding, with the products of both multipliers in integer arithmetic, the index into the key and the number of the place |
| MtReference.KeyRemains | src/base/random_mt.cc:70-113 | the last 623 writes are what is left in the array, each in its place, and word 0 is 0x80000000 |
| MtReference.Recurrence | src/base/random_mt.cc:122-138 | word n + 624 is word n + 397 xor the upper bit of word n and the lower bits of word n + 1 moved down by one, xor 0x9908b0df if the last of these bits is set |
| MtReference.TemperLinear | src/base/random_mt.cc:142-148 | tempering commutes with xor, so that what becomes of single bits determines it |
| MtReference.TemperUnits0 | src/base/random_mt.cc:142-148 | what becomes of bits 0 to 7 |
| MtReference.TemperUnits1 | src/base/random_mt.cc:142-148 | of bits 8 to 15 |
| MtReference.TemperUnits2 | src/base/random_mt.cc:142-148 | of bits 16 to 23 |
| MtReference.TemperUnits3 | src/base/random_mt.cc:142-148 | of bits 24 to 31 |
| RandomMt.Random.InitSeed | src/base/random_mt.cc:49-64 | the loop fills the array with the seed words, which are those of MtReference.SeedNumbers |
| RandomMt.Random.InitKey | src/base/random_mt.cc:70-113 | the two mixing loops with their wrapping indices leave the key words |
| RandomMt.Random.constructor | src/base/random.cc:47-50 | a generator is seeded, and no word has been drawn |
| RandomMt.Random.FromKey | src/base/random.cc:52-55 | the same for a key |
| RandomMt.Random.Regenerate | src/base/random_mt.cc:122-138 | the three segments, which mix old and new words in place, leave the next block of the recurrence |
| RandomMt.Random.Genrand | src/base/random_mt.cc:116-149 | the n-th draw is the tempered word 624 + n of the infinite recurrence |
| RandomRun.DrawFromSeed | src/base/random_mt.cc:49-149 | the MT19937 object seeded with any word: draw i is the tempered word 624 + i of the recurrence from the seed words, for any number of draws, and no state is zero |
| RandomRun.DrawFromKey | src/base/random_mt.cc:70-149 | the same for any non-empty key |
| BoundedRandom.Uniform | src/base/random.cc:66-83 | every value up to the bound has exactly 2^shift words that give it |
| BoundedRandom.MoreThanHalfAccepted | src/base/random.cc:66-83 | more than half of all words are accepted |
| BoundedRandom.ShiftUnique | src/base/random.cc:75-76 | the shift is determined by the bound |
| BoundedRandom.GenrandMax | src/base/random.cc:66-83 | the result is the first accepted draw of the generator, never above the bound, with the two special bounds handled |
| IntMath.LeastSigBitMeaning | src/base/intmath.hh:64-69 | the result is the largest power of two that divides the argument |
| IntMath.PowerOf2Iff | src/base/intmath.hh:71-76 | accepted if and only if a power of two |
| IntMath.FloorLog2 | src/base/intmath.hh:99-113 | 2^y <= n < 2^(y+1) |
| IntMath.CeilLog2 | src/base/intmath.hh:172-180 | 2^(r-1) < n <= 2^r |
| IntMath.CeilMeaning | src/base/intmath.hh:203-209 | the reference for rounding up: the least multiple that is not below |
| IntMath.RoundUpMeaning | src/base/intmath.hh:203-209 | the mask expression rounds up to a power of two in modular arithmetic |
| IntMath.SmallPower | src/base/intmath.hh:203-209 | every power of two up to 2^30 survives being passed as the int alignment |
| IntMath.RoundUpTo2Pow31 | src/base/intmath.hh:203-209 | for the alignment 2^31, which does not fit an int, the result is right if and only if the value is at most 2^31 |
| IntMath.RoundUpLost | src/base/intmath.hh:203-209 | 2^31 + 1 is rounded up to 0 |
| ChunkTheorems.FirstStop | src/base/chunk_generator.hh:81-109 | up to 2^30 the first chunk ends at the next boundary, and the distance is right also where the address space ends |
| ChunkTheorems.HugeLow | src/base/chunk_generator.hh:96-103 | with 2^31 that is so from every start up to 2^31 |
| ChunkTheorems.HugeHigh | src/base/chunk_generator.hh:96-103 | from a higher start the first length is the distance to the next multiple of 2^31, 0 for a multiple, and the second address is reduced modulo 2^32 |
| ChunkTheorems.ChunksCover | src/base/chunk_generator.hh:81-144 | all chunks of a region make it up exactly, also round the end of the address space, for every power of two up to 2^30; for 2^31 if and only if the region is empty, or the start is at most 2^31, or the start is not a multiple of 2^31 and either the region ends in its first block or that block is the last of the address space |
| ChunkTheorems.CoversPlain | src/base/chunk_generator.hh:81-144 | where the region does not go round, the chunks are a partition of it: non-empty, contiguous, none across a boundary, all but the first aligned, all but the first and last full |
| ChunkTheorems.HugeLost | src/base/chunk_generator.hh:81-144 | with a chunk size of 2^31 a region at 2^32 has no chunks |
| Chunks.ChunkGenerator.constructor | src/base/chunk_generator.hh:81-109 | the generator is where the theorems start, for every region and chunk size |
| Chunks.ChunkGenerator.Next | src/base/chunk_generator.hh:131-144 | one step of the run the theorems are about; false exactly at the end |
| Chunks.Chop | src/base/chunk_generator.hh:81-144 | the loop of the class's users delivers all chunks: they make up the region if and only if the condition of ChunksCover holds |
| Chunks.ChopWhole | src/base/chunk_generator.hh:81-144 | chunk size 0 gives the whole region as one chunk |
| Primes.IsPrime | src/base/intmath.hh:43-62 | the wheel loop accepts exactly the numbers without a trial divisor |
| Primes.RightOffTwosAndThrees | src/base/intmath.hh:43-62 | for every n from 5 on that is coprime to 6, accepted if and only if prime |
| Primes.RightIff | src/base/intmath.hh:43-62 | for every integer, the exact condition under which the answer is right |
| Primes.ThirtyThree | src/base/intmath.hh:43-62 | 33 is accepted and is not prime |
| Primes.PrevPrime | src/base/intmath.cc:34-61 | the loop ends for every argument with the first accepted number of its toggling walk |
| Primes.PrevPrimeRightIff | src/base/intmath.cc:34-61 | for every n that has a prime up to it: below 5 the result is never the largest one; from 5 on it is for n = 3 and 4 modulo 6, and otherwise if and only if that prime has the residue of the first number tried and every odd multiple of three above it has another prime factor near its root |
| Primes.ThirtyFive | src/base/intmath.cc:34-61 | prevPrime(35) is 33 |
| WheelSearch.InPhase | src/base/intmath.cc:45-60 | a walk that starts in phase stops at the largest prime |
| WheelSearch.OutOfPhase | src/base/intmath.cc:45-60 | a walk that starts out of phase does so if and only if the prime has its residue and nothing is accepted between |
| CircleRing.WroteInStepIff | src/base/circlebuf.cc:179-214 | after a write, count, start and stop still say which characters are unread if and only if the write fits without going round the end while the unread characters do not, or leaves exactly one place, or replaces everything |
| CircleRing.TookInStepIff | src/base/circlebuf.cc:73-97 | after a read they do if and only if something was unread, or start is at the end and stop at the beginning, or the read goes all the way round |
| CircleRing.OutOfStep | src/base/circlebuf.cc:210-213 | a run of the code that ends with a write after which the read position is at characters already read |
| CircleRing.DeliversOldestIff | src/base/circlebuf.cc:73-97 | in step, a read delivers the oldest unread characters, as many as asked for or all, if and only if there are any, or start is at the end and stop at the beginning |
| CircleRing.EmptyDelivers | src/base/circlebuf.cc:84-90 | a run of the code after which nothing is unread and a read delivers others |
| CircleRing.EveryRunInBounds | src/base/circlebuf.cc:65-214 | in every run whose copies stay inside the buffer, 0 <= start <= buflen + 1 and 0 <= stop <= buflen |
| CircleRing.InsideIff | src/base/circlebuf.cc:73-155 | the copies of a read stay inside the buffer if and only if its length is not negative and start <= buflen |
| CircleRing.OutsideReached | src/base/circlebuf.cc:84-97 | a run of four writes and reads that leaves start at buflen + 1, after which a read copies from outside |
| Circle.CircleBuf.Flush | src/base/circlebuf.cc:65-71 | the history is empty, the count stays |
| Circle.CircleBuf.Read | src/base/circlebuf.cc:73-97 | the history is unchanged; the copies stay inside the buffer if and only if the length is not negative and start <= buflen; in step, the oldest unread characters are delivered if and only if there are any or start is at the end and stop at the beginning, and the others stay unread |
| Circle.CircleBuf.ReadRest | src/base/circlebuf.cc:125-155 | the copies stay inside the buffer if and only if start <= buflen, and none is left unread; in step, all unread characters are delivered |
| Circle.CircleBuf.ReadAll | src/base/circlebuf.cc:157-165 | exactly the last min(total, buflen) bytes written since the last flush |
| Circle.CircleBuf.Write | src/base/circlebuf.cc:179-214 | the history grows by what is written, also for writes longer than the buffer and a stop index at its end |
| CirclePlay.Play | src/base/circlebuf.cc:65-214 | for every interleaving of writes, reads and flushes: either a copy goes outside the buffer, exactly if the indices say so, or the final readall is the end of what was written since the last flush |
| CirclePlay.Relay | src/base/circlebuf.cc:73-214 | for every run of writes that fit and reads of something that is there, what has been read is everything written, in order and once, but for the characters still unread |
| RangeMaps.FindAddress | src/base/range_map.hh:80-116 | on disjoint ranges the upper bound and one step back find what a linear scan finds |
| RangeMaps.FindRange | src/base/range_map.hh:80-116 | a range query returns overlapping entries only, and misses one if and only if its predecessor ends before it and it reaches its successor |
| RangeMaps.InsertKeepsDisjoint | src/base/range_map.hh:129-137 | insertion keeps the ranges disjoint if and only if that case does not occur |
| RangeMaps.InsertLookup | src/base/range_map.hh:129-137 | a successful insertion changes the value of exactly the addresses of the new range |
| RangeMaps.GapOverlooked | src/base/range_map.hh:80-137 | a map built by insertion, and a range that overlaps an entry, is not found, and breaks disjointness when inserted |
| RangeMaps.RangeMap.Intersect | src/base/range_map.hh:118-127 | yes only if some entry overlaps; on disjoint entries if and only if some entry overlaps and the query is not the one find overlooks |
| RangeMaps.RangeMap.Insert | src/base/range_map.hh:129-137 | refused exactly when find finds something, and otherwise inserted in order by start, also into an empty map |
| AnnotateLog.AddedKeeps | src/base/cp_annotate.cc:812-836 | adding a record keeps written and pending records in order of creation and holds back exactly the unresolved links |
| AnnotateLog.UpdateKeeps | src/base/cp_annotate.cc:210-225 | taking bytes from a record or resolving a held link keeps the file right, because counts are written as they were |
| AnnotateLog.DumpedMeaning | src/base/cp_annotate.cc:924-966 | below a batch of 10000 nothing happens; otherwise the file grows up to the first unresolved link, and no unresolved link is in it |
| AnnotateLog.AddedMeaning | src/base/cp_annotate.cc:812-836 | adding a link writes nothing, and neither does any record below a batch of 10000; otherwise less than a batch is pending unless an unresolved link comes first |
| AnnotateLog.FinalDump | src/base/cp_annotate.cc:924-966 | dump(true) writes every record there is, each in its place |
| AnnotateLog.IndexMeaning | src/base/cp_annotate.cc:947-949 | index entry k is the file offset of record number 100000 (k + 1) |
| AnnotateFile.DecodeEncode | src/base/cp_annotate.cc:952-958 | a reader of the 19 bytes gets back every field modulo its width, and the record itself if and only if its fields fit |
| AnnotateFile.EncodedAt | src/base/cp_annotate.cc:952-958 | each of the 19 bytes of a record: eight of the time, four of the count, two of the machine, two of the state or queue, and one each of the operation, the flags and the processor, lowest byte first |
| AnnotateFile.CountComesBack | src/base/cp_annotate.cc:952-958 | a count read as a signed number comes back if and only if it is a 32-bit one, as the -1 of a dequeue of everything |
| AnnotateFile.IndexFindsRecord | src/base/cp_annotate.cc:947-958 | in every state of every run, the bytes of the file at index entry k are those of record number 100000 (k + 1), with its original count |
| AnnotateLog.WholeInOrder | src/base/cp_annotate.cc:812-966 | lines written followed by those of pending records are the lines of all records, and none that is written is an open link |
| AnnotateHistory.EveryRunInOrder | src/base/cp_annotate.cc:812-836 | over every run of creating, linking, resolving and consuming, the file grows, no record is lost, and the lines of the records are those of the old ones and of the created ones in order, with their original counts and the targets that were resolved |
| AnnotateHistory.RunsFromStart | src/base/cp_annotate.cc:812-966 | from an empty log, file and pending lines are exactly the history of the events, no open link is in the file, and dump(true) writes the whole history |
| ByteQueue.FrontCutFlat | src/base/cp_annotate.cc:1016-1046 | walking over the runs from the front drops exactly the first n bytes of the plain queue |
| ByteQueue.BackCutFlat | src/base/cp_annotate.cc:638-657 | walking over them from the back drops exactly the last n |
| QueueTheorems.DequeueMeaning | src/base/cp_annotate.cc:1016-1046 | the same on shared records: only the count of one entry changes, and the entries stay distinct |
| QueueTheorems.ResizeMeaning | src/base/cp_annotate.cc:638-657 | the same at the back |
| QueueTheorems.EnqueueKeeps | src/base/cp_annotate.cc:968-986 | queueing keeps every queue's counters right, adds to one queue and leaves the bytes of the others |
| QueueTheorems.ReplaceKeeps | src/base/cp_annotate.cc:989-1051 | changing the entries of one queue leaves the bytes and counters of all others |
| QueueTheorems.RemoveFront | src/base/cp_annotate.cc:1016-1046 | the loop stops where the plain queue says; it never finds the queue empty |
| QueueTheorems.RemoveBack | src/base/cp_annotate.cc:638-657 | the loop stops where the plain queue says; it never finds the queue empty |
| AnnotateNames.DenseAdd | src/base/cp_annotate.hh:323-339 | numbers 1 to n stay in use by exactly one key each |
| AnnotateNames.EnterKeeps | src/base/cp_annotate.hh:283-296 | the number table and the name table stay inverse |
| AnnotateNames.EnterMeaning | src/base/cp_annotate.hh:283-296 | a name keeps the number it is given, and no earlier number changes |
| AnnotateNames.NumberMeaning | src/base/cp_annotate.hh:283-296 | a number belongs to a name if and only if looking the name up gives it |
| AnnotateNames.WithStateKeeps | src/base/cp_annotate.hh:300-320 | the states of every machine are numbered densely |
| AnnotateStacks.NoStack | src/base/cp_annotate.cc:166-199 | a system that has no number yet has no running machines |
| AnnotateStacks.TopFound | src/base/cp_annotate.cc:262-286 | the machine on top of a stack is found again by its name, so the assertion on its end holds and nothing is created |
| AnnotateStacks.HeldWait | src/base/cp_annotate.cc:797-803 | a new waiting link keeps waiting links and unresolved records in one-to-one correspondence |
| AnnotateStacks.HeldResolve | src/base/cp_annotate.cc:210-225 | so does resolving one |
| CpaTheorems.SoundAdd | src/base/cp_annotate.cc:812-836 | a new record keeps the log in order, the links held and every plain queue, and adds one line |
| CpaTheorems.SoundEnter | src/base/cp_annotate.cc:968-986 | a record entered into a queue adds its line, and its bytes at one end of one plain queue |
| CpaTheorems.SoundReplace | src/base/cp_annotate.cc:989-1051 | new entries and counts of one queue change the bytes of that plain queue only, and no line |
| CpaTheorems.SoundWait | src/base/cp_annotate.cc:797-803 | a link that waits is held back and changes no queue |
| CpaTheorems.SoundResolve | src/base/cp_annotate.cc:210-225 | resolving a link changes the target of one line, and no queue |
| CpaTidy.TidyBegan | src/base/cp_annotate.cc:145-235 | after a begin, names and numbers still determine each other, stacks hold machines of their own system, links lead to machines, and the links that wait are exactly the open lines; a link that waits for the machine is found |
| CpaTidy.TidySmEnd | src/base/cp_annotate.cc:250-302 | the same after an end: the machine on top is found again by its name |
| CpaTidy.TidySyscallLink | src/base/cp_annotate.cc:773-810 | the same after a system-call link |
| CpaTidy.TidySwBegin | src/base/cp_annotate.cc:348-378 | the same after a state |
| CpaTidy.TidySwDq | src/base/cp_annotate.cc:442-469 | the same after a dequeue, fatal or not |
| CpaTidy.TidyHwDrawn | src/base/cp_annotate.hh:429-441 | the same after a dequeue by hardware, whose queue may belong to another system |
| Annotate.Cpa.constructor | src/base/cp_annotate.cc:133-144 | a new annotator stands for the empty description |
| Annotate.Cpa.Dump | src/base/cp_annotate.cc:924-966 | the loop writes what Dumped describes |
| Annotate.Cpa.Add | src/base/cp_annotate.cc:812-836 | the record is appended, and the batch is dumped unless it is a link |
| Annotate.Cpa.DoQ | src/base/cp_annotate.cc:968-986 | one line more, and the bytes at the back of the plain queue, or in front with FL_QOPP, as CpaCalls.QueueCall and CpaCalls.HwQueueCall have it; nothing else changes; lines already there stay |
| Annotate.Cpa.DoDq | src/base/cp_annotate.cc:989-1051 | drops exactly the first bytes, or all for -1, and adds one line; fatal if and only if there are too few, after everything pending is written |
| Annotate.Cpa.SizeQueue | src/base/cp_annotate.cc:617-658 | grows at the back or shrinks from the back to max(size, 0), after an optional reset, with exactly the lines that are due |
| Annotate.Cpa.SwQ | src/base/cp_annotate.cc:411-440 | does so for the named queue of the system if a machine is running; a count of 0 only makes the queue |
| Annotate.Cpa.SwDq | src/base/cp_annotate.cc:442-469 | takes bytes from the named queue if a machine is running |
| Annotate.Cpa.SwSq | src/base/cp_annotate.cc:593-659 | gives the named queue a size if a machine is running; all other queues, tables and stacks stay |
| Annotate.Cpa.HwQ | src/base/cp_annotate.hh:414-427 | queues bytes from a named hardware machine, at either end, in a queue of any system |
| Annotate.Cpa.HwDq | src/base/cp_annotate.hh:429-441 | takes them |
| Annotate.Cpa.GetSys | src/base/cp_annotate.hh:323-339 | the system's number; a new system gets empty tables and no number changes |
| Annotate.Cpa.GetSm | src/base/cp_annotate.hh:283-296 | the machine's number, new or not |
| Annotate.Cpa.GetQ | src/base/cp_annotate.hh:343-360 | the queue's number; a new queue is empty and all queue vectors have one entry per number |
| Annotate.Cpa.GetSt | src/base/cp_annotate.hh:300-320 | the state's number in its machine |
| Annotate.Cpa.SmBegin | src/base/cp_annotate.cc:145-235 | the machine is on top of the stack of its system and frame; the link that waited for it leads to it; exactly the link and state lines that are due are added; queues, other stacks and other links stay |
| Annotate.Cpa.SmEnd | src/base/cp_annotate.cc:250-302 | the machine is taken off if and only if it is on top, with exactly the link back and, if another machine is below it, the line with its own last state that are due, and its way back is forgotten; all else stays |
| Annotate.Cpa.SyscallLink | src/base/cp_annotate.cc:773-810 | an open link from the current machine, found by the target's name and frame, and then the end of the current machine if asked for, with its lines and its way back; all else stays |
| Annotate.Cpa.SwBegin | src/base/cp_annotate.cc:348-378 | the machine on top is in the state, with a line if it was in another one, as CpaCalls.StateCall has it; explicit mode suspends states that are not explicit; nothing happens for a name that the table of ignored symbols matches |
| CpaCalls.StateCall | src/base/cp_annotate.cc:348-378 | if a machine is on top and explicit mode does not forbid it, the state has a number n in the machine's table, that is its last state, and one line with operation 1 is added if and only if its last state was another; otherwise nothing changes |
| CpaCalls.BeginCall | src/base/cp_annotate.cc:145-235 | the whole effect of a begin in numbers and lists: the stack, explicit mode, the link from below or the one that waited, the way back, and the first state |
| CpaCalls.EndCall | src/base/cp_annotate.cc:250-302 | the whole effect of an end: the link back and then the line with the last state, the stack and the way back, if and only if the machine on top has the name |
| CpaCalls.LinkCall | src/base/cp_annotate.cc:773-810 | the whole effect of a system-call link: the open line, what waits for it, and the end if asked for |
| CpaCalls.QueueCall | src/base/cp_annotate.cc:411-440 | the old bytes stay in front and the number of the new line follows as often as the count says; the line has operation 4; other queues stay |
| CpaCalls.DequeueCall | src/base/cp_annotate.cc:442-469 | fatal if and only if there are too few bytes; otherwise the first ones go, or all for -1, with a line of operation 5; other queues stay |
| CpaCalls.SizeCall | src/base/cp_annotate.cc:593-659 | emptied with bit 32 of the flags, then filled up or cut off at the back to the size, with the lines of operations 8 and 4 that are due |
| CpaCalls.HwQueueCall | src/base/cp_annotate.hh:414-427 | the bytes go to the back, or to the front if and only if bit 4 of the flags is set; bit 1 is set in the line |
| CpaCalls.HwDequeueCall | src/base/cp_annotate.hh:429-441 | the first bytes go, or all for -1; fatal if and only if there are too few |
| CpaPlay.Perform | src/base/cp_annotate.cc:145-1051 | any of nine calls does to the shared records what the model does to plain lists; the file grows, no record is lost and no line changes but by getting its target |
| CpaPlay.Play | src/base/cp_annotate.cc:145-1051 | every run of calls from the start ends with the lines, queues, tables and stacks of the model's run, or is fatal exactly when that is, with every line on file |
| CpaRuns.EveryRun | src/base/cp_annotate.cc:145-1051 | over every run, tables, stacks and links stay in order, no line is lost or changed but by getting its target, and queues stay what a reader rebuilds from the lines |
| CpaRuns.LinesTellQueues | src/base/cp_annotate.cc:593-1051 | after every run from the start, reading the lines in order gives the contents of every queue, byte by byte |
| CpaStates.LinesTellStates | src/base/cp_annotate.cc:348-378 | after every run from the start, the last line of every machine with operation 1 names the state that the annotator holds to be its last |
| CpaOrder.QueuesStayInOrder | src/base/cp_annotate.cc:968-1051 | after every run from the start whose hardware calls do not set bit 4, the line numbers in every queue never decrease |
| CpaOrder.FrontInOrderIff | src/base/cp_annotate.cc:978-981 | with that bit they do so if and only if the queue was empty |
| CpaOrder.TakesOldest | src/base/cp_annotate.cc:989-1051 | after every such run, a dequeue that is not fatal takes the oldest bytes of its queue, as many as it asks for or all |
| CpaOrder.HwTakesOldest | src/base/cp_annotate.hh:429-441 | and so does one by hardware |
| CpaRuns.IgnoredRightIff | src/base/cp_annotate.cc:44-73 | the table of ignored symbols matches no name without a terminator inside, so it works if and only if the name begins with none of its symbols |
| CpaRuns.SpinNotIgnored | src/base/cp_annotate.cc:44-73 | a name that begins with one of its symbols and is not ignored |
| CpaBytes.BytesTellQueues | src/base/cp_annotate.cc:924-966 | after every run from the start with 32-bit counts, reading the 19-byte records of the file in order, whatever comes before and after them, gives the contents of every queue, byte by byte |
| CpaPlay.PlayOut | src/base/cp_annotate.cc:94-99 | so it does of the file that every run of the class leaves after dump(true), fatal runs included |
| CpaLinks.WaitsUntilBegun | src/base/cp_annotate.cc:210-225 | over every run, a link that waits is resolved if and only if a machine of its system, name and frame begins; until then its line is as it was and it waits |
| CpaBackLinks.BackStays | src/base/cp_annotate.cc:277-292 | over every run in which a machine does not end, the way back from it stays |
| CpaBackLinks.LinkThereAndBack | src/base/cp_annotate.cc:174-292 | a machine begins with a link, from the machine below or from a system call; whatever happens before its end, its end adds the reverse link, and both lines stay |
| CpaNests.CallStack | src/base/cp_annotate.cc:145-1051 | a call leaves the stack of a system and frame as it is unless it begins or ends a machine there, and no system or machine changes its number |
| CpaNests.NestRestores | src/base/cp_annotate.cc:145-302 | over every run in which the machines of a system and frame begin and end in nests, with any other calls between, their stack is back to what it was |
| CpaBackLinks.BeginThenEnd | src/base/cp_annotate.cc:145-302 | a begin and its end leave every stack as it was, and the ways back if and only if the machine was linked or had none before |
| IsaParser.Parser.constructor | src/arch/isa_parser.py:1028-1032 | both stacks hold their bottom entries |
| IsaParser.Parser.DefineInst | src/arch/isa_parser.py:1619-1643 | an instruction uses its explicit format, which must exist, or else the one on top of the stack, or is an error |
| IsaParser.Parser.OptDefault | src/arch/isa_parser.py:1494-1509 | pushes exactly one default clause: the block's own or the enclosing one |
| IsaParser.Parser.DecodeBlock | src/arch/isa_parser.py:1479-1488 | the result is the lexically scoped compilation, and both stacks are back to what they were |
| IsaParser.Parser.StmtList | src/arch/isa_parser.py:1511-1519 | the same for a list of statements, with the error for two defaults |
| IsaParser.Parser.DecodeStmt | src/arch/isa_parser.py:1547-1586 | the same for one statement |
| DecodeTheorems.SwitchesMeanSource | src/arch/isa_parser.py:1479-1586 | for every source that compiles and every value of every field, the switches first execute the instruction the source means, and nothing else if its code returns; without a return, nothing else if and only if no code follows a nested block on the way |
| DecodeTheorems.NestedBlockRunsOn | src/arch/isa_parser.py:1569-1577 | a source for which the switches execute a second instruction |
| DecodeTheorems.SwitchesTotal | src/arch/isa_parser.py:1479-1519 | every emitted switch has exactly one default, and the other outputs have the instructions in the same order |
| DecodeTheorems.CompilesIff | src/arch/isa_parser.py:1479-1643 | compilation succeeds if and only if formats exist, instructions have one, no block has two defaults and every block has or inherits one |
| DecodeFormats.WrittenFormat | src/arch/isa_parser.py:1633-1643 | an instruction with an existing format written on it compiles to code that runs it with that format, whatever is around it |
| DecodeFormats.EmittedFormats | src/arch/isa_parser.py:1479-1643 | for every source that compiles, the instructions of all outputs are in order those of the places of the source, each with the format written on it or else that of the innermost format block; an inherited default is written out in each block without one |
| DecodeLabels.SwitchCases | src/arch/isa_parser.py:1479-1586 | the code of a block is one switch on its field, with a case label for every value written in it, in order, and no other |
| GdbSpec.I2Digit | src/base/remote_gdb.cc:944-963 | reading the digit back gives the low four bits |
| GdbWire.DigitTable | src/base/remote_gdb.cc:944-963 | a character has the value d if and only if it is digit d of 0123456789abcdef or of 0123456789ABCDEF; the former are written |
| GdbWire.NoDigit | src/base/remote_gdb.cc:944-957 | all other characters count as -1 |
| GdbWire.FrameOnWire | src/base/remote_gdb.cc:363-387 | a packet is "$", the payload, "#" and the sum of the payload modulo 256 in two digits, the high one first |
| GdbWire.FrameOfOk | src/base/remote_gdb.cc:363-387 | the packet for OK is $OK#9a |
| GdbWire.AcceptedIff | src/base/remote_gdb.cc:404-429 | a packet with any two digits, of either case, is accepted if and only if they spell the sum of its payload |
| GdbWire.CopiesIff | src/base/remote_gdb.cc:363-387 | n + 1 copies are sent if and only if the answers begin with exactly n characters whose low seven bits are "-" |
| GdbWire.StringEnds | src/base/remote_gdb.cc:373-378 | what is sent is what comes before the first terminator |
| GdbWire.SequenceEchoed | src/base/remote_gdb.cc:431-437 | after any noticed damages, a packet with a colon in third place is delivered without its first three characters, and the first two are sent back behind the "+" |
| GdbWire.HexOnWire | src/base/remote_gdb.cc:966-977 | every byte of a block is written as its high digit and then its low one |
| GdbTheorems.IntactAccepted | src/base/remote_gdb.cc:363-447 | a frame is accepted with its payload, whatever is before its start character and after it |
| GdbTheorems.PayloadDamage | src/base/remote_gdb.cc:404-429 | one damaged payload character is noticed if and only if its low seven bits changed; one that becomes an end character if and only if the two characters after it do not spell the checksum of those before it |
| GdbTheorems.CutOffAccepted | src/base/remote_gdb.cc:404-429 | a packet that is accepted cut off |
| GdbTheorems.ChecksumDamage | src/base/remote_gdb.cc:422-429 | damaged checksum digits are noticed if and only if they do not spell the checksum |
| GdbTheorems.DigitDamage | src/base/remote_gdb.cc:422-429 | one damaged digit is noticed if and only if its value changed |
| GdbTheorems.BadDigitAccepted | src/base/remote_gdb.cc:422-429 | two digits, one of which is none, that are accepted for a checksum they do not spell |
| GdbTheorems.TryMore | src/base/remote_gdb.cc:390-447 | an attempt to receive does not depend on what arrives later |
| GdbTheorems.DeliveredExactlyOnce | src/base/remote_gdb.cc:363-447 | after any number of noticed damages an intact copy is delivered once, with one complaint for each damaged copy and exactly as many copies sent, if every damaged copy is shorter than the buffer; as it was sent if and only if the third character in the buffer is not a colon; otherwise the buffer is overrun |
| GdbTheorems.ColonThird | src/base/remote_gdb.cc:431-437 | a payload of five characters with a colon in third place is delivered as its last two |
| GdbTheorems.LongPayload | src/base/remote_gdb.cc:431-437 | from two characters on, that is a condition on the payload alone |
| GdbTheorems.WaitsAfterDamage | src/base/remote_gdb.cc:390-447 | after damaged copies only, the receiver has complained about each and the sender sends again; or one of them was as long as the buffer, which is overrun |
| GdbTheorems.OverrunIff | src/base/remote_gdb.cc:404-421 | for every input, the terminator is written behind the buffer if and only if an attempt that is not accepted, before the accepted one, has as many characters as the buffer |
| GdbTheorems.OverrunReached | src/base/remote_gdb.cc:404-421 | a limit as large as the buffer, and that many characters without an end character |
| GdbTheorems.UndefinedIff | src/base/remote_gdb.cc:431-437 | a negative length is passed to memcpy if and only if the packet has fewer than two characters and the buffer holds a colon from before in third place |
| GdbTheorems.UndefinedReached | src/base/remote_gdb.cc:431-437 | two intact packets received into one buffer of which the second does it |
| GdbTheorems.UnhexMeaning | src/base/remote_gdb.cc:983-999 | decoding stops at the last digit or the limit, with a null pointer if and only if that is inside a byte; every byte is its pair of digits |
| GdbTheorems.HexRoundTrip | src/base/remote_gdb.cc:966-999 | decoding undoes encoding |
| GdbTheorems.BlockSurvives | src/base/remote_gdb.cc:363-447 | a block of memory put through encoding, framing, noticed damages shorter than the buffer and decoding comes back unchanged |
| RemoteGdb.BaseRemoteGdb.Send | src/base/remote_gdb.cc:363-387 | one copy and one more for every leading complaint |
| RemoteGdb.BaseRemoteGdb.Recv | src/base/remote_gdb.cc:390-447 | the loop, with its one buffer for all attempts, gives the outcome, answers and buffer that the theorems are about; the buffer may be as long as the limit, as at its only call |
| RemoteGdb.Mem2Hex | src/base/remote_gdb.cc:966-977 | the digits of the block and a terminator, the rest of the destination unchanged |
| RemoteGdb.Hex2Mem | src/base/remote_gdb.cc:983-999 | the decoded bytes and the end pointer, the rest of the destination unchanged |

## Left out

- HistStorage.HistStor.AddSample: counters are real numbers, so rounding of doubles is not modelled; the logs term of a sample is left out.
- HistogramTheorems.CumulativeBracket: for samples with non-negative weights, because a negative one makes cumulative counts go down.
- BoundedRandom.GenrandMax: takes a draw that is accepted as a parameter the code does not have, because nothing but the period of the generator rules out an endless run of rejections.
- Primes.IsPrime: does not model overflow of the square of the trial divisor in 32-bit arithmetic.
- IntMath.FloorLog2: the 32-bit unsigned version only.
- HistogramPlaces.RunExactIff: for positive weights, because others can cancel out.
- HistogramOdd.OddRunExactIff: for positive weights too.
- Circle.CircleBuf.Read: the characters delivered out of step are those at the indices, and not related to what was written; a copy from outside the buffer ends the model of the run.
- RangeMaps.RangeMap.Insert: on an empty map find compares with the end of the tree before it returns the end; the model returns nothing.  range_multimap is left out.
- Chunks.Chop: addresses have more than 32 bits.
- Annotate.Cpa.DoQ: a negative count, which the code lets through as long as the sum stays positive, and overflow of the 32-bit byte counters are not modelled.
- Annotate.Cpa.SmBegin: the assertions that a machine has no link yet are preconditions, and so is the limit of 65534 numbers where a new one is needed.
- CpaPlay.Play: for runs in which the assertions the code makes on its callers hold (at most one link to a machine, a machine to end, counts of -1 or above 0 to dequeue, fewer than 65535 numbers).
- Annotate.Cpa.SyscallLink: the assertion that no link waits for the same name and frame is a precondition where a machine is running.
- Annotate.Cpa.SmEnd: the stack is not empty; the code reads its top before it looks whether there is one.
- RemoteGdb.BaseRemoteGdb.Recv: the buffer has at least three places and room for maxlen characters; a terminator written behind it, and a negative length, are outcomes after which nothing is said.
- RemoteGdb.BaseRemoteGdb.Send: a read that fails ends the model of the call instead of giving an arbitrary byte.
- AnnotateFile.DecodeEncode: fields are written in little-endian order, which is that of the host.
- IsaParser.Parser.DecodeStmt: preprocessor directives are left out, and the code of an instruction is a name; the text of labels and indentation is not modelled.
- Looking up an absent key of a C++ map inserts a default; the model treats absent and default as the same.
- The annotator's other calls (peeking, waiting, reserving, assertions on queues, explicit links, ends of states, hardware states), identification, checkpointing, key output and symbol lookup: they use the operations above or only do input and output.
- genrand for 64-bit bounds: the order of its two draws is not specified.
- Lexing, regular expressions and the Python code of instruction formats.
- Sockets, signal handling and memory access of the debugger stub.
- The rest of the statistics package, configuration scripts and utilities.
