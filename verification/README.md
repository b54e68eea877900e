# A model of nksrv's stand-alone parts

nksrv is an NNTP server and imageboard. This project models the parts of it that stand on
their own and carry invariants, and proves those invariants. `dafny verify dfyconfig.toml`
checks everything.

**The shared article cache** (`CachePub`, `Copyer`, `CacheEngine`, `CacheInvariant`,
`CacheSteps`, `CacheObjSteps`, `CacheGenSteps`, `CacheSafety`, `CacheProgress`,
`CacheGap`, `CacheEffects`, `CacheWork`, `CacheReturn`, `CacheService`, `CacheServed`,
`CacheShared`, `CacheRestart`, `CacheFiles`). Many readers share one generator: they
stream from a file that is still being written and then go on with the stable file.
`CacheEngine` is a step system whose steps are single critical sections, file operations
and pieces of a copy, taken by any number of calls and generators in any order. Files are
byte sequences with a count of how often they were closed, renaming is atomic, and opening
may fail at will. The content of an id is deterministic, and a destination reports the
bytes it consumed; `Copyer` proves that of the copier that the server resumes. The second
look at the map does not test the count again. So the file of a registered call is safe
(`CacheSafety.FilesAreSafe`), while a call that slipped past that look can be left with a
closed one (`CacheGap.SecondCheckGap` is such a run), and `CacheGap.SafeIfRegistered` says
that these are exactly the two cases. Progress is proved with steps at which nothing fails
of its own accord: from every reachable state they can lead every call to its return and
any new call to success (`CacheServed.EveryCallCanBeServed`).

**X-Face** (`XFaceTables`, `XFaceCoder`, `XFacePredictor`, `XFaceBlocks`, `XFaceCodec`,
`XFaceContext`). A causal predictor, a quadtree, a reversible integer coder and base-94
digits, and the decoder that undoes all of it. `allSame` steps once past the last row,
which stops the encoder on white blocks of the bottom row right of column 0. Encoding
therefore does not complete for every face: `XFaceCodec.XfaceCompletes` says for exactly
which residuals it does, `XFaceCodec.BlankFaceStops` gives a face for which it does not,
and the round trip is proved for all faces for which it does. `XFaceContext` says place by
place which pixels the predictor and the quadtree look at, also where a window runs over
the right edge into the next row.

**PCG generators** (`ModArith`, `PcgPeriod`, `PcgBounded`, `PcgOutput`, `Pcg`, `Pcg32`,
`Pcg64`). Jump-ahead in both directions modulo 2^64 and on two limbs modulo 2^128, the
full period, the output words bit by bit, unbiased bounding, and the termination of the
rejection loops, which follows from the full period.

**Buffered readers** (`Source`, `BufReader`, `DotReader`, `DotLines`). A scripted reader
stands for every way of cutting a stream into pieces. `BufReader` refines taking items off
one pending stream; `DotReader` decodes dot-stuffed blocks (section 3.1.1 of RFC 3977) on
top of it, well-formed or not.

**yEnc** (`YEncText`, `YEnc`, `YEncRoundTrip`). The encoder and decoder with their fixed
buffers against a specification of lines, and the two one after the other. The decoder's
test for `=y` lines asks for the size of its buffer and not of the line, so for a line of
less than two bytes it looks at what the buffer held before; `YEnc.YDecoder.Fetch` says no
more than that, and no line the encoder writes is that short.

**Multipart bodies** (`Multipart`, `MultiGrammar`, `MultiLines`, `MultiReader`,
`MultiSplit`, `MultiWriter`, `MultiRoundTrip`). How a message splits into parts is defined
on the whole input (section 5.1.1 of RFC 2046, with CRLF or LF). The reader, which sees a
bounded window of it, gives exactly these parts, and parts framed by the writer come back
unchanged.

**Message headers** (`Headers`, `HeaderGrammar`, `HeaderReader`, `HeaderWriter`,
`HeaderRoundTrip`). Header fields with folding (section 2.2.3 of RFC 5322): the reader,
which takes lines as far as they are buffered, against a specification of whole lines, the
lines and contents it accepts, and the round trip of the tuples of key, original name,
value and split lengths.

**Puller and server** (`Puller`, `PullerList`, `PullerVerdict`, `GroupSlices`, `Server`,
`ServerProgress`). The two goroutines that fetch a list of articles, and starting and
shutting down the server, as step systems over every interleaving; and the ranges a group
is fetched in, each of which such a run works off to its last entry. When the database
fails, the call that fetches a list throws away how its worker ended. So it can return
without a fatal error while responses are still to come (`Puller.DroppedError`);
`Puller.InStepUnlessDropped` says exactly when.

**DES crypt** (`DesWords`, `DesPermutation`, `DesRound`, `Des`, `DesTables`, `DesInit`).
The fast table-driven rounds refine permutations and substitutions of single bits.
Repeating them with the outer permutations hoisted out of the loop is the same as
repeating the whole, because the tables are set up to undo each other, and running with
the keys in reverse order undoes it.

## Model

| member | source | states |
|---|---|---|
| `CacheSafety.CountIsExact` | src/nksrv/lib/utils/fs/cacheengine/cacheengine.go:108-145 | In every interleaving, an object whose count is above zero has a count equal to the number of calls that registered and have not unregistered |
| `CacheProgress.ZeroStays` | src/nksrv/lib/utils/fs/cacheengine/cacheengine.go:108-145 | No step of any call or generator takes a count off zero |
| `CacheSafety.FilesAreSafe` | src/nksrv/lib/utils/fs/cacheengine/cacheengine.go:118-145 | No file is closed more than once, and a call that is registered and reads the shared file finds it open |
| `CacheGap.SecondCheckGap` | src/nksrv/lib/utils/fs/cacheengine/cacheengine.go:186-194 | Counterexample: a run after which a call that registered on the second look at the map, with the count already zero, reads a closed file |
| `CacheGap.SafeIfRegistered` | src/nksrv/lib/utils/fs/cacheengine/cacheengine.go:108-194 | The exact condition: the file a call reads stays open however all others go on exactly if the call found the count above zero when it registered |
| `CacheGap.UnregisteredIsCollected` | src/nksrv/lib/utils/fs/cacheengine/cacheengine.go:118-145 | When a call whose registration did not count reads an open file, another call is collecting the object and about to close that file |
| `CacheSafety.InitiatorIsUser` | src/nksrv/lib/utils/fs/cacheengine/cacheengine.go:245-305 | While a generator runs, the call that started it is among the users of its object, so the object is in use when the file or an error is published |
| `CacheSafety.NoRestartAtFallback` | src/nksrv/lib/utils/fs/cacheengine/cacheengine.go:267-303 | A call that was given the published file and falls back to the stable one is registered and never finds the request to start again |
| `CacheSafety.SuccessIsComplete` | src/nksrv/lib/utils/fs/cacheengine/cacheengine.go:350-400 | What a destination has got is always a prefix of the content of the id, and all of it when the call returns without an error |
| `CacheSafety.StableIsComplete` | src/nksrv/lib/utils/fs/cacheengine/cacheengine.go:254-263 | A file under its stable name holds the whole content of its id |
| `CacheSafety.StepKeeps` | src/nksrv/lib/utils/fs/cacheengine/cacheengine.go:90-401 | Every step of a call, of a generator and of the arrival of a call keeps the invariant |
| `CacheSafety.RunKeeps` | src/nksrv/lib/utils/fs/cacheengine/cacheengine.go:90-401 | After every run of steps from the empty cache the invariant holds |
| `CacheSafety.CallStepKeeps` | src/nksrv/lib/utils/fs/cacheengine/cacheengine.go:108-194 | Every step of a call keeps the invariant |
| `CacheSafety.GenStepKeeps` | src/nksrv/lib/utils/fs/cacheengine/cacheengine.go:228-306 | Every step of a generator keeps the invariant |
| `CacheGenSteps.InitiatorStays` | src/nksrv/lib/utils/fs/cacheengine/cacheengine.go:245-305 | A running generator has its starting call registered, on its object and not past the published file |
| `CacheGenSteps.KeepsGenCheck` | src/nksrv/lib/utils/fs/cacheengine/cacheengine.go:267-285 | Posting the request to start again, when the only user has read everything, keeps the invariant |
| `CacheGenSteps.KeepsGenPublish` | src/nksrv/lib/utils/fs/cacheengine/cacheengine.go:298-303 | Publishing the stable file keeps the invariant |
| `CacheGenSteps.KeepsGenClose` | src/nksrv/lib/utils/fs/cacheengine/cacheengine.go:245-250 | Closing the file that has been written, while readers still look at it, keeps the invariant |
| `CacheGenSteps.KeepsGenRename` | src/nksrv/lib/utils/fs/cacheengine/cacheengine.go:254-263 | Putting the finished file under its stable name keeps the invariant |
| `CacheObjSteps.KeepsFirstCheck` | src/nksrv/lib/utils/fs/cacheengine/cacheengine.go:168-179 | The first look at the map, with registration, keeps the invariant |
| `CacheObjSteps.KeepsSecondCheck` | src/nksrv/lib/utils/fs/cacheengine/cacheengine.go:183-194 | The second look, which inserts a new object or registers, keeps the invariant |
| `CacheObjSteps.KeepsUnregister` | src/nksrv/lib/utils/fs/cacheengine/cacheengine.go:118-126 | Unregistering keeps the invariant, also when it makes the count zero |
| `CacheObjSteps.KeepsMarkBroken` | src/nksrv/lib/utils/fs/cacheengine/cacheengine.go:156-163 | Marking an object as broken, which sets its count to zero, keeps the invariant |
| `CacheObjSteps.KeepsClose` | src/nksrv/lib/utils/fs/cacheengine/cacheengine.go:137-143 | Closing the shared file when the last user has left keeps the invariant |
| `CacheSteps.KeepsEndPub` | src/nksrv/lib/utils/fs/cacheengine/cacheengine.go:350-372 | The end of reading the published file, complete or not, keeps the invariant |
| `CacheSteps.KeepsEndFile` | src/nksrv/lib/utils/fs/cacheengine/cacheengine.go:394-400 | The end of reading the stable file keeps the invariant |
| `CacheProgress.BlockedOnWriter` | src/nksrv/lib/utils/cachepub/cachepub.go:93-122 | A reader that has got all that is published, with no end mark, waits for a generator that is still writing and can write or finish |
| `CacheProgress.WaiterIsServed` | src/nksrv/lib/utils/fs/cacheengine/cacheengine.go:327-372 | A call that waits for its object, for its generator or in a read of the published file can move, or the generator of its object can, or the call that is about to start that generator, each by a step at which nothing fails of its own accord |
| `CacheProgress.NoDeadlock` | src/nksrv/lib/utils/fs/cacheengine/cacheengine.go:90-401 | While any call has not returned, some call or generator can take a step, also when files, destinations and generators never fail of their own accord |
| `CacheServed.EveryCallCanBeServed` | src/nksrv/lib/utils/fs/cacheengine/cacheengine.go:90-401 | From every reachable state, for every call that is about to begin: steps at which nothing fails lead to a state in which that call has returned without an error with the whole content of its id, which is on disk under its stable name, and every other call has returned too |
| `CacheServed.AnyArticleCanBeServed` | src/nksrv/lib/utils/fs/cacheengine/cacheengine.go:90-401 | From every reachable state a call for any id at all can come and be served in that way |
| `CacheServed.LoneIsServed` | src/nksrv/lib/utils/fs/cacheengine/cacheengine.go:204-303 | A call that has just made its object while no other is at work is served on every schedule on which nothing fails: the steps are bounded, and as long as it has not returned with success there is a next one |
| `CacheService.AllReturn` | src/nksrv/lib/utils/fs/cacheengine/cacheengine.go:90-401 | From every reachable state, steps at which nothing fails lead every call to its return |
| `CacheReturn.ProceedIsBounded` | src/nksrv/lib/utils/fs/cacheengine/cacheengine.go:90-401 | Without a new look at the map, calls and generators at which nothing fails take no more steps than the work there is, whatever the schedule |
| `CacheWork.CallWorkFalls` | src/nksrv/lib/utils/fs/cacheengine/cacheengine.go:204-400 | Every step of a call at which nothing fails, but for a look at the map, leaves less work |
| `CacheWork.GenWorkFalls` | src/nksrv/lib/utils/fs/cacheengine/cacheengine.go:228-306 | Every step of a generator at which nothing fails leaves less work |
| `CacheShared.OneObjectInUse` | src/nksrv/lib/utils/fs/cacheengine/cacheengine.go:168-194 | In every interleaving, two objects of the same id that are both in use, with no error posted for either, are one and the same |
| `CacheShared.OneWriter` | src/nksrv/lib/utils/fs/cacheengine/cacheengine.go:183-252 | No id is generated twice at a time |
| `CacheRestart.RestartsExactly` | src/nksrv/lib/utils/fs/cacheengine/cacheengine.go:267-285 | In every run, the generator asks its user to start again, instead of opening the finished file, exactly if the call that started it is the only user and has given up reading what was being written |
| `CacheFiles.NoFileIsForgotten` | src/nksrv/lib/utils/fs/cacheengine/cacheengine.go:118-250 | In every interleaving, failures included, every file that a call or a generator has opened has been closed exactly once when no call is at work |
| `CachePub.CachePub.Write` | src/nksrv/lib/utils/cachepub/cachepub.go:35-50 | The published length grows by the bytes the file took, and an error of the file stays with the object |
| `CachePub.Reader.Read` | src/nksrv/lib/utils/cachepub/cachepub.go:93-122 | A read gives the next bytes of what is published and ends as its specification says |
| `CachePub.ReaderSeesPrefix` | src/nksrv/lib/utils/cachepub/cachepub.go:35-122 | However writes, faults, the end mark and reads interleave, a reader has been given a prefix of what was written; whatever error the file itself did not answer with is the writer's, and is heard only when all that was written had been given; behind the end mark it is EOF or the reason for cancelling, and all there ever is had been given; EOF is heard behind that mark only |
| `CachePub.ReaderGetsAll` | src/nksrv/lib/utils/cachepub/cachepub.go:93-122 | Behind the end mark, a reader that reads often enough, in pieces of any sizes, has got all that was written and hears the writer's error |
| `Copyer.FullNNTPCopyer.CopyFrom` | src/nksrv/lib/app/psqlib/internal/pireadnntp/nntpcopyer.go:35-99 | The returned count is the number of source bytes the client got, in order and from the front, whatever went wrong; success means all of them |
| `Copyer.FullNNTPCopyer.CopyLoop` | src/nksrv/lib/app/psqlib/internal/pireadnntp/nntpcopyer.go:68-91 | The copy loop hands over exactly the first `written` bytes of what the source delivers |
| `Copyer.FullNNTPCopyer.Deliver` | src/nksrv/lib/app/psqlib/internal/pireadnntp/nntpcopyer.go:69-82 | One write of the loop, short or complete, keeps the count equal to what was handed over |
| `Copyer.ReadMore` | src/nksrv/lib/app/psqlib/internal/pireadnntp/nntpcopyer.go:90-90 | Reading into the buffer splits what the source still delivers |
| `XFaceCodec.XfaceRoundTrip` | src/nksrv/lib/utils/xface/dec_nofmt.go:100-131 | Whenever encoding a 48x48 face completes, decoding the text onto a white face gives back that face |
| `XFaceCodec.XfaceCompletes` | src/nksrv/lib/utils/xface/enc_nofmt.go:8-21 | Encoding completes if and only if every white cell of the bottom row of the residual lies in an all-white block at column 0 or is the corner cell |
| `XFaceCodec.BlankFaceStops` | src/nksrv/lib/utils/xface/enc_nofmt.go:8-21 | Counterexample: the all-white face is its own residual, and encoding it runs past the last row |
| `XFaceBlocks.FaceCompletes` | src/nksrv/lib/utils/xface/enc_nofmt.go:94-118 | The nine blocks are all encoded exactly under that condition on the bitmap |
| `XFaceBlocks.FaceRoundTrip` | src/nksrv/lib/utils/xface/dec_nofmt.go:100-117 | Decoding the pushed symbols of the blocks from k on restores these blocks and leaves the integer as it was before the pushes |
| `XFaceBlocks.FaceRestored` | src/nksrv/lib/utils/xface/dec_nofmt.go:100-117 | Decoding all nine blocks onto a white face gives the bitmap and the old integer |
| `XFaceBlocks.BlockRoundTrip` | src/nksrv/lib/utils/xface/enc_nofmt.go:65-84 | Decoding a block undoes encoding it, at every level of the quadtree |
| `XFaceBlocks.QuartersRoundTrip` | src/nksrv/lib/utils/xface/dec_nofmt.go:60-75 | Decoding the four quarters undoes encoding them |
| `XFaceBlocks.GreysRoundTrip` | src/nksrv/lib/utils/xface/enc_nofmt.go:46-63 | Popping the cells of a grey block undoes pushing them |
| `XFaceBlocks.CheckAllSame` | src/nksrv/lib/utils/xface/enc_nofmt.go:8-21 | The loop answers whether all pixels of the block agree with its first one, or runs past the end |
| `XFaceBlocks.WhiteStops` | src/nksrv/lib/utils/xface/enc_nofmt.go:42-44 | The test for white answers truly, except that it runs past the end on a white block of the bottom row right of column 0 |
| `XFaceContext.BlackIsInkedCells` | src/nksrv/lib/utils/xface/enc_nofmt.go:23-40 | A block is taken for black exactly when each of its 2x2 cells has a black pixel |
| `XFaceContext.SymbolCount` | src/nksrv/lib/utils/xface/enc_nofmt.go:46-84 | A white block takes one symbol, a block with ink in every cell one more than it has cells, any other block one more than its quarters |
| `XFaceContext.GreysInOrder` | src/nksrv/lib/utils/xface/enc_nofmt.go:46-63 | The symbols of a block with ink in every cell are those of its four quarters, one quarter after the other |
| `XFaceContext.QuartersInOrder` | src/nksrv/lib/utils/xface/enc_nofmt.go:65-84 | The symbols of the quarters of a block follow one another in the order of the quarters |
| `XFaceContext.QuarterHas` | src/nksrv/lib/utils/xface/enc_nofmt.go:68-84 | The quarters come in the order upper left, upper right, lower left, lower right, and each pixel of the block lies in exactly one |
| `XFaceCoder.PopUndoesPush` | src/nksrv/lib/utils/xface/enc_nofmt.go:86-92 | Popping over a partition of 0..255 gives back the pushed symbol and the integer from before |
| `XFaceCoder.PushUndoesPop` | src/nksrv/lib/utils/xface/dec_nofmt.go:18-32 | Pushing what was popped gives back the integer |
| `XFaceCoder.LevelsPartition` | src/nksrv/lib/utils/xface/tables_prob_nofmt.go:3-9 | The three ranges of every level partition 0..255 |
| `XFaceCoder.GreysPartition` | src/nksrv/lib/utils/xface/tables_prob_nofmt.go:11-16 | The sixteen ranges of the cells partition 0..255 |
| `XFaceCoder.GreysPushable` | src/nksrv/lib/utils/xface/tables_prob_nofmt.go:11-16 | Only the all-white cell has an empty range |
| `XFaceCoder.NoGreyAtBottom` | src/nksrv/lib/utils/xface/tables_prob_nofmt.go:3-9 | No integer decodes to grey at level 3, so decoding never goes deeper |
| `XFaceCoder.PushInteger` | src/nksrv/lib/utils/xface/enc_nofmt.go:86-92 | The big integer becomes the pushed one |
| `XFaceCoder.PopInteger` | src/nksrv/lib/utils/xface/dec_nofmt.go:18-32 | For every integer a symbol is found, and both it and the integer left are those of the specification |
| `XFaceCoder.GetByteAndShift` | src/nksrv/lib/utils/xface/dec_nofmt.go:8-16 | The low byte is taken off |
| `XFaceCodec.ReadUndoesWrite` | src/nksrv/lib/utils/xface/dec_nofmt.go:77-98 | Reading the base-94 digits of a number gives the number |
| `XFaceCodec.XfaceWrite` | src/nksrv/lib/utils/xface/enc_nofmt.go:120-140 | The text is the base-94 digits of the integer, highest first |
| `XFaceCodec.XfaceRead` | src/nksrv/lib/utils/xface/dec_nofmt.go:77-98 | The number of a digit string, or nothing if a character is invalid or there is no digit |
| `XFaceCodec.XfaceEncode` | src/nksrv/lib/utils/xface/enc_nofmt.go:94-118 | The bitmap is filtered in place and its symbols are pushed, exactly when no block stops the encoder |
| `XFaceCodec.XfaceDecode` | src/nksrv/lib/utils/xface/dec_nofmt.go:100-117 | The decoded bitmap, with the filter undone |
| `XFaceCodec.DecodeBlockInto` | src/nksrv/lib/utils/xface/dec_nofmt.go:60-75 | Decoding in place computes the specified block and integer |
| `XFaceCodec.PopGreysInto` | src/nksrv/lib/utils/xface/dec_nofmt.go:34-58 | Popping cells in place computes the specified pixels and integer |
| `XFaceCodec.XfaceEncodeString` | src/nksrv/lib/utils/xface/enc_nofmt.go:142-146 | Filter, encode and write, or the stop of the encoder |
| `XFaceCodec.XfaceDecodeString` | src/nksrv/lib/utils/xface/dec_nofmt.go:119-131 | Read, decode and undo the filter; an invalid text leaves the bitmap alone |
| `XFacePredictor.TableIndexInRange` | src/nksrv/lib/utils/xface/gen.go:14-121 | Every context indexes inside the table chosen for its pixel |
| `XFaceContext.ContextBit` | src/nksrv/lib/utils/xface/gen.go:19-48 | Bit by bit: the context of a pixel is made of the pixels of its window that count, column by column and downwards, the first one in the highest bit; at the right edge a column further on is the left one of the next row |
| `XFaceContext.TableFits` | src/nksrv/lib/utils/xface/gen.go:50-121 | Away from the left and upper edge the table used for a pixel has one bit for every context its neighbours can form, and at least eight |
| `XFaceContext.TableDigit` | src/nksrv/lib/utils/xface/gen.go:71-71 | A byte of a table answers eight contexts, its highest bit the first of them |
| `XFacePredictor.GuessCausal` | src/nksrv/lib/utils/xface/gen.go:14-121 | The guess for pixel h depends on pixels below h only, also where the window runs over the right edge |
| `XFacePredictor.GenerateFace` | src/nksrv/lib/utils/xface/gen.go:3-122 | Every pixel is changed by its guess; with dst and src the same array each guess sees filtered pixels |
| `XFacePredictor.FilterPixel` | src/nksrv/lib/utils/xface/gen.go:14-121 | Exactly one pixel is changed, by the guess made from src |
| `XFacePredictor.CausalFilterUndone` | src/nksrv/lib/utils/xface/gen.go:3-122 | An XOR filter is undone in place whenever equal prefixes give equal guesses |
| `XFacePredictor.UnpredictRestores` | src/nksrv/lib/utils/xface/gen.go:3-122 | Filtering the residual in place gives back the original |
| `PcgPeriod.IterateClosed` | src/nksrv/lib/utils/pcg/pcg32.go:41-49 | n steps are the map x -> a^n x + c (1 + a + .. + a^(n-1)) |
| `PcgPeriod.IterateDouble` | src/nksrv/lib/utils/pcg/lcg.go:3-16 | 2k steps are k steps of the generator with squared multiplier and increment c (a + 1) |
| `PcgPeriod.SumDivisible` | src/nksrv/lib/utils/pcg/lcg.go:3-43 | For an odd a the sum 1 + .. + a^(n-1) has all the factors two of n |
| `PcgPeriod.SumDivisibleOnly` | src/nksrv/lib/utils/pcg/lcg.go:3-43 | For a = 1 modulo 4 it has no more |
| `PcgPeriod.StepsReturn` | src/nksrv/lib/utils/pcg/lcg.go:3-43 | Any multiple of 2^k steps of a generator with an odd multiplier is the identity modulo 2^k |
| `PcgPeriod.OnlyFullPeriodsReturn` | src/nksrv/lib/utils/pcg/pcg32.go:21-25 | With an odd increment and a multiplier 1 modulo 4, n steps lead back if and only if 2^k divides n |
| `PcgPeriod.VisitsEveryState` | src/nksrv/lib/utils/pcg/pcg32.go:21-25 | From any state such a generator reaches every state |
| `PcgPeriod.NoEarlyRepeat` | src/nksrv/lib/utils/pcg/pcg32.go:21-25 | It does not repeat a state within a period |
| `Pcg.AdvanceLCG64` | src/nksrv/lib/utils/pcg/lcg.go:3-16 | The logarithmic jump reaches the state that delta single steps reach, modulo 2^64 |
| `Pcg.AdvanceLCG128` | src/nksrv/lib/utils/pcg/lcg.go:18-43 | The same modulo 2^128, on two limbs |
| `Pcg.JumpStep` | src/nksrv/lib/utils/pcg/lcg.go:22-38 | One turn of the loop leaves the whole jump as it was and halves the distance left |
| `Pcg.HalveLimbs` | src/nksrv/lib/utils/pcg/lcg.go:36-37 | Shifting the two limbs divides the distance by two |
| `Pcg.XUint128.Add` | src/nksrv/lib/utils/pcg/xuint128.go:10-14 | Addition is exact modulo 2^128 |
| `Pcg.XUint128.Multiply` | src/nksrv/lib/utils/pcg/xuint128.go:16-22 | Multiplication is exact modulo 2^128 |
| `Pcg.Product` | src/nksrv/lib/utils/pcg/xuint128.go:16-22 | The three partial products and the carry give the product modulo 2^128 |
| `Pcg.RetreatReturns` | src/nksrv/lib/utils/pcg/pcg32.go:83-85 | d steps and -d steps undo each other in both orders, for every d, state and increment |
| `Pcg32.PCG32.Seed` | src/nksrv/lib/utils/pcg/pcg32.go:36-39 | The increment is odd, and the state is one step behind the seed plus the increment |
| `Pcg32.PCG32.Random` | src/nksrv/lib/utils/pcg/pcg32.go:41-49 | The output of the old state, and one step; PcgOutput.Output32Bits says bit by bit what the output is |
| `Pcg32.PCG32.SlowBounded` | src/nksrv/lib/utils/pcg/pcg32.go:51-62 | The first word not below the threshold, reduced by the bound; the loop ends |
| `Pcg32.PCG32.Bounded` | src/nksrv/lib/utils/pcg/pcg32.go:64-77 | The first accepted word, scaled; the loop ends, and the result is below the bound |
| `Pcg32.PCG32.Advance` | src/nksrv/lib/utils/pcg/pcg32.go:79-81 | The state after delta calls of Random |
| `Pcg32.PCG32.Retreat` | src/nksrv/lib/utils/pcg/pcg32.go:83-85 | The state from which delta calls of Random lead back here |
| `Pcg32.EveryWordComes` | src/nksrv/lib/utils/pcg/pcg32.go:41-49 | Every 32-bit word comes up eventually, from any state |
| `PcgOutput.Output32Onto` | src/nksrv/lib/utils/pcg/pcg32.go:44-48 | Every 32-bit word is the output of some state |
| `PcgOutput.Output32Bits` | src/nksrv/lib/utils/pcg/pcg32.go:41-43 | Bit j of the output is the exclusive or of bits 27 + i and 45 + i of the state, where i is j plus the top five bits of the state, modulo 32 |
| `PcgOutput.RotatedRight` | src/nksrv/lib/utils/pcg/pcg32.go:41-43 | Bit j of a word rotated to the right by count is bit j + count of the word, modulo its width |
| `Pcg64.PCG64.Seed` | src/nksrv/lib/utils/pcg/pcg64.go:32-40 | The increment is odd modulo 2^128, and the state is one step behind the seed plus the increment |
| `Pcg64.PCG64.Random` | src/nksrv/lib/utils/pcg/pcg64.go:42-57 | One step, and the output of the new state; PcgOutput.Output64Bits says bit by bit what the output is |
| `PcgOutput.Output64Bits` | src/nksrv/lib/utils/pcg/pcg64.go:42-57 | Bit j of the output is the exclusive or of bits i of the two limbs, where i is j plus the top six bits of the state, modulo 64 |
| `Pcg64.PCG64.SlowBounded` | src/nksrv/lib/utils/pcg/pcg64.go:59-70 | The first word not below the threshold, reduced by the bound; the loop ends |
| `Pcg64.PCG64.Bounded` | src/nksrv/lib/utils/pcg/pcg64.go:72-89 | The first accepted word, scaled; the loop ends, and the result is below the bound |
| `Pcg64.PCG64.Advance` | src/nksrv/lib/utils/pcg/pcg64.go:91-97 | The state after delta calls of Random, modulo 2^128 |
| `Pcg64.PCG64.Retreat` | src/nksrv/lib/utils/pcg/pcg64.go:99-104 | The state from which delta calls of Random lead back here |
| `Pcg64.ComplementNegates` | src/nksrv/lib/utils/pcg/pcg64.go:99-104 | Complementing both limbs and adding one is negation modulo 2^128 |
| `Pcg64.EveryWordComes` | src/nksrv/lib/utils/pcg/pcg64.go:42-57 | Every 64-bit word comes up eventually, from any state |
| `PcgBounded.ScaleBelowBound` | src/nksrv/lib/utils/pcg/pcg64.go:72-89 | The high word of the product is below the bound |
| `PcgBounded.LemireWindow` | src/nksrv/lib/utils/pcg/pcg32.go:64-77 | The words that are accepted with outcome k are floor(w / b) consecutive ones |
| `PcgBounded.LemireUniform` | src/nksrv/lib/utils/pcg/pcg32.go:64-77 | Exactly floor(w / b) words are accepted for each outcome |
| `PcgBounded.ModUniform` | src/nksrv/lib/utils/pcg/pcg32.go:51-62 | The same for the modulo method |
| `PcgBounded.SomeWordAccepted` | src/nksrv/lib/utils/pcg/pcg64.go:72-89 | Some word is accepted for every bound |
| `PcgBounded.NegateMod` | src/nksrv/lib/utils/pcg/pcg32.go:69-69 | Wrapped negation reduced by the bound is the threshold |
| `PcgBounded.ShortcutIsThreshold` | src/nksrv/lib/utils/pcg/pcg32x2.go:60-67 | The subtract-first shortcut computes 2^64 modulo the bound |
| `BufReader.BufReader.Read` | src/nksrv/lib/utils/text/bufreader/bufreader.go:56-75 | The bytes returned, and then the error, come off the front of the pending stream; without an error and with room something is returned |
| `BufReader.BufReader.ReadByte` | src/nksrv/lib/utils/text/bufreader/bufreader.go:77-93 | One byte, or the error in front of it, comes off the pending stream |
| `BufReader.BufReader.UnreadByte` | src/nksrv/lib/utils/text/bufreader/bufreader.go:95-113 | The byte is put in front of the pending stream, exactly when there is room before the buffered bytes |
| `BufReader.BufReader.ReadUntil` | src/nksrv/lib/utils/text/bufreader/bufreader.go:115-153 | Everything up to the first q, or as much as fits or comes before an error, comes off the pending stream |
| `BufReader.BufReader.Capacity` | src/nksrv/lib/utils/text/bufreader/bufreader.go:163-169 | The room behind the buffered bytes; nothing pending changes |
| `BufReader.BufReader.CompactBuffer` | src/nksrv/lib/utils/text/bufreader/bufreader.go:171-180 | The buffered bytes move to the front and nothing pending changes |
| `BufReader.BufReader.FillBufferAtleast` | src/nksrv/lib/utils/text/bufreader/bufreader.go:182-202 | More of the pending stream is buffered, as much as was asked for if there is room, or the error in the way is taken off |
| `BufReader.BufReader.FillBufferUpto` | src/nksrv/lib/utils/text/bufreader/bufreader.go:204-229 | The same up to a level; an error stays queued behind what was added |
| `BufReader.BufReader.Discard` | src/nksrv/lib/utils/text/bufreader/bufreader.go:231-259 | As many bytes as were asked for come off the pending stream, or all up to its first error |
| `BufReader.BufReader.Drop` | src/nksrv/lib/utils/text/bufreader/bufreader.go:261-264 | Exactly the buffered bytes are lost |
| `Source.Source.Read` | src/nksrv/lib/utils/text/bufreader/bufreader.go:14-19 | A reader below answers from a script: what it returns comes off the front of the items it delivers |
| `DotReader.DotReader.Process` | src/nksrv/lib/utils/text/bufreader/dotreader.go:35-104 | One byte moves the parser as specified; a byte that is put back always fits |
| `DotReader.DotReader.Turn` | src/nksrv/lib/utils/text/bufreader/dotreader.go:131-151 | One byte read and processed leaves what comes next unchanged |
| `DotReader.DotReader.ReadByte` | src/nksrv/lib/utils/text/bufreader/dotreader.go:131-151 | The next byte of text, or the end or the error in front of it |
| `DotReader.DotReader.Read` | src/nksrv/lib/utils/text/bufreader/dotreader.go:106-129 | As much text as asked for, taken off the stream as specified |
| `DotReader.DotReader.Discard` | src/nksrv/lib/utils/text/bufreader/dotreader.go:153-174 | As much text is skipped as Read would return |
| `DotReader.NextByte` | src/nksrv/lib/utils/text/bufreader/dotreader.go:35-104 | Every byte of text makes the measure over what is left and the state smaller |
| `DotReader.NextOfText` | src/nksrv/lib/utils/text/bufreader/dotreader.go:35-104 | In front of a stuffed text the next byte is the first one of the text, and in front of nothing the end |
| `DotReader.TextComesBack` | src/nksrv/lib/utils/text/bufreader/dotreader.go:106-174 | Taking any number of bytes from a stuffed text gives the front of the text and leaves the rest of it stuffed |
| `DotReader.PerformAll` | src/nksrv/lib/utils/text/bufreader/dotreader.go:106-174 | Any mix of Read, ReadByte and Discard of any sizes over a stuffed text returns the text without the discarded spans, and the reader carries on right behind it |
| `DotReader.Perform` | src/nksrv/lib/utils/text/bufreader/dotreader.go:106-174 | Each one of the calls returns or skips the next span of the text and leaves the rest of it |
| `DotReader.DotRoundTrip` | src/nksrv/lib/utils/text/bufreader/dotreader.go:106-129 | Reading a whole dot-stuffed block gives its text and leaves exactly what stands behind its last line |
| `DotLines.AnyBlock` | src/nksrv/lib/utils/text/bufreader/dotreader.go:20-175 | Reading any block, stuffed properly or not, line by line: a leading dot is taken off, a CR in front of the line feed too, all other bytes stay; it ends at the first line that is a dot with or without a CR, leaves what stands behind it, and tells whether some line ended without a CR or held one elsewhere |
| `YEncText.LinesComeBack` | src/nksrv/lib/utils/yenc/enc.go:13-74 | For every byte string, the lines written are fit to be sent, without "=y", a leading dot or a split escape, and decode to the string |
| `YEncText.PushAllSplit` | src/nksrv/lib/utils/yenc/enc.go:13-51 | The lines do not depend on how the input is cut into writes |
| `YEncText.OnTheWire` | src/nksrv/lib/utils/yenc/enc.go:13-51 | A byte is sent as the byte 42 above it, modulo 256, except that NUL, LF, CR, "=" and a dot at the start of a line are sent as "=" and the byte 106 above |
| `YEncText.OnlyLastShort` | src/nksrv/lib/utils/yenc/enc.go:13-51 | All lines but the last are as long as a line may get: 990 bytes, or 991 where the last byte is escaped; the last is not empty |
| `YEncText.ByteComesBack` | src/nksrv/lib/utils/yenc/dec.go:34-50 | Decoding an encoded byte gives it back, at the start of a line and elsewhere |
| `YEncText.DecodeAppend` | src/nksrv/lib/utils/yenc/dec.go:34-50 | Decoding goes piece by piece when no escape is cut |
| `YEnc.YEncoder.WriteByte` | src/nksrv/lib/utils/yenc/enc.go:14-50 | One byte extends the lines as specified, in the buffer of 1000 bytes |
| `YEnc.YEncoder.Write` | src/nksrv/lib/utils/yenc/enc.go:13-51 | All bytes are taken, and extend the lines as specified |
| `YEnc.YEncoder.Close` | src/nksrv/lib/utils/yenc/enc.go:53-74 | What has been sent is exactly the finished lines |
| `YEnc.YDecoder.Decode` | src/nksrv/lib/utils/yenc/dec.go:34-50 | Decoding in place gives the decoded line |
| `YEnc.YDecoder.Fetch` | src/nksrv/lib/utils/yenc/dec.go:19-53 | One line is read; it is skipped exactly when it starts with "=y", as far as its own two bytes tell |
| `YEnc.YDecoder.Read` | src/nksrv/lib/utils/yenc/dec.go:55-66 | Over data lines, every split of reads hands out their text in order and without loss, and the only error is EOF at the end |
| `YEncRoundTrip.RoundTrip` | src/nksrv/lib/utils/yenc/enc.go:13-74 | Any bytes, written in any pieces and closed, come back through the decoder from any chunking of what was sent, in reads of any sizes one after the other, and then EOF |
| `YEncRoundTrip.Encode` | src/nksrv/lib/utils/yenc/enc.go:13-74 | Some writes and a close send exactly the encoding of all the bytes together |
| `YEncRoundTrip.Decode` | src/nksrv/lib/utils/yenc/dec.go:19-66 | A stream that holds the encoding of some bytes, cut in any way and read in any sizes, gives these bytes and then EOF |
| `Multipart.CheckIsRight` | src/nksrv/lib/mail/multireader.go:317-348 | A positive or negative answer about a delimiter line holds for every continuation of what is buffered |
| `Multipart.CheckAtEnd` | src/nksrv/lib/mail/multireader.go:317-348 | At the end of the stream the answer is positive exactly for a delimiter line |
| `Multipart.CheckIsQuick` | src/nksrv/lib/mail/multireader.go:317-348 | Without an answer no more has been seen than the mark, the blanks and less than a newline |
| `MultiGrammar.DelimiterIs` | src/nksrv/lib/mail/multireader.go:293-348 | A delimiter line stands at a place exactly if what follows there is the dash-boundary, two hyphens or not, any blanks, and a newline or, behind the hyphens, the end of the stream |
| `MultiGrammar.ClosesIs` | src/nksrv/lib/mail/multireader.go:317-348 | What stands behind the dash-boundary ends a closing or an ordinary delimiter exactly if it has that form |
| `Multipart.FrontIsRight` | src/nksrv/lib/mail/multireader.go:286-298 | When the front of a delimiter is found, what is called readable holds no delimiter, and the end is found exactly there |
| `Multipart.RestIsRight` | src/nksrv/lib/mail/multireader.go:299-311 | When none is found, what is called readable holds no part of one |
| `Multipart.FirstIsRight` | src/nksrv/lib/mail/multireader.go:260-285 | A delimiter right at the start of a part makes the part empty, and a false one belongs to it |
| `Multipart.EndsOnce` | src/nksrv/lib/mail/multireader.go:205-256 | A part has one end only |
| `MultiReader.CheckAfterPrefix` | src/nksrv/lib/mail/multireader.go:317-348 | The answer is true of the whole stream, and if there is none the buffer has room or the stream goes on without a delimiter |
| `MultiReader.FindEnd` | src/nksrv/lib/mail/multireader.go:258-312 | What is found of a part is within it, its end is found at the end only, and if nothing is found more of the stream is to come |
| `MultiReader.PartReader.CheckReadable` | src/nksrv/lib/mail/multireader.go:258-312 | The readable amount lies within the part, and EOF is said at its end only |
| `MultiReader.PartReader.Prepare` | src/nksrv/lib/mail/multireader.go:205-241 | In a well-formed part something becomes readable or the end is reported; there is no other error |
| `MultiReader.PartReader.Read` | src/nksrv/lib/mail/multireader.go:205-256 | Every read gives the next bytes of the part, EOF behind the last one and not before, whatever the chunks and sizes are |
| `MultiReader.PartReader.ReadAll` | src/nksrv/lib/mail/multireader.go:60-64 | Reading to EOF gives exactly the rest of the part |
| `MultiReader.PartReader.AwaitLine` | src/nksrv/lib/mail/multireader.go:68-101 | A line that fits the buffer is buffered whole; without one the end is EOF exactly behind a closing mark |
| `MultiReader.PartReader.NextLines` | src/nksrv/lib/mail/multireader.go:68-147 | The lines between two parts lead to what the whole-input specification says |
| `MultiReader.PartReader.NextPart` | src/nksrv/lib/mail/multireader.go:59-155 | After any part, read to its end or not, the reader is at the first byte of the next one, or reports EOF behind the closing delimiter |
| `MultiLines.EndLeads` | src/nksrv/lib/mail/multireader.go:103-146 | The lines behind the end of a part are its delimiter: they open the next part exactly if the delimiter is not a closing one |
| `MultiLines.BoundaryLeads` | src/nksrv/lib/mail/multireader.go:103-131 | A delimiter line is recognised as one when it is taken as a line |
| `MultiRoundTrip.TextIsPart` | src/nksrv/lib/mail/multireader.go:258-312 | A text no line of which starts with the dash-boundary is a part that ends behind its last byte |
| `MultiRoundTrip.PreambleLeads` | src/nksrv/lib/mail/multireader.go:132-139 | Lines in front of the first delimiter are skipped |
| `MultiRoundTrip.FirstLeads` | src/nksrv/lib/mail/multireader.go:116-131 | The first delimiter line tells whether the message ends its lines with LF only |
| `MultiSplit.ReadMessage` | src/nksrv/lib/mail/multireader.go:59-256 | For every well-terminated message, with CRLF or LF, whose preamble and delimiter lines fit the buffer: reading all its parts gives the split of the whole input and then EOF, for every chunking, buffer size and sequence of read sizes |
| `MultiSplit.PartSplits` | src/nksrv/lib/mail/multireader.go:205-256 | A part and what follows its delimiter make up the split from its start on |
| `MultiSplit.ReadPart` | src/nksrv/lib/mail/multireader.go:103-256 | Reading one part and going on gives the first part of the split and leaves the rest of it |
| `MultiRoundTrip.FramedSplits` | src/nksrv/lib/mail/multireader.go:59-256 | What has been framed splits into exactly the parts it was framed from |
| `MultiRoundTrip.ReadParts` | src/nksrv/lib/mail/multireader.go:59-256 | Parts framed by the writer come back unchanged and in order, then EOF, for every chunking, buffer size and sequence of read sizes |
| `MultiWriter.PartWriter.StartNextPart` | src/nksrv/lib/mail/multiwriter.go:26-46 | A part is opened: what is written is the framing of one part more |
| `MultiWriter.PartWriter.FinishParts` | src/nksrv/lib/mail/multiwriter.go:48-64 | What has been written is the framing of all parts, with preamble and epilogue |
| `MultiWriter.WrittenFramed` | src/nksrv/lib/mail/multiwriter.go:26-64 | What is written so far, continued in any way, is the framing of all its parts |
| `HeaderReader.ReadHeaderIntoFunc` | src/nksrv/lib/mail/headerreader.go:207-398 | For every chunking, the headers, the error and what is left are those of the whole-input specification |
| `HeaderReader.TakeBuffered` | src/nksrv/lib/mail/headerreader.go:250-379 | Taking all that is buffered leaves the outcome of the whole unchanged |
| `HeaderReader.NextPiece` | src/nksrv/lib/mail/headerreader.go:252-270 | A piece is a line without its newline, or all that is buffered |
| `HeaderReader.Unfolder.FinishCurrent` | src/nksrv/lib/mail/headerreader.go:221-245 | The header is complete: its lines joined and trimmed, with its split lengths, or refused for its content |
| `HeaderReader.Unfolder.OpenHeader` | src/nksrv/lib/mail/headerreader.go:309-355 | A line opens a header, with its key, original name and content, or is refused |
| `HeaderReader.Unfolder.FoldHeader` | src/nksrv/lib/mail/headerreader.go:357-378 | A line continues a header and the length of the line before is recorded, or it is refused |
| `HeaderReader.Unfolder.EndLine` | src/nksrv/lib/mail/headerreader.go:292-378 | A complete line, without its CR, ends the headers or is taken as specified |
| `HeaderReader.Unfolder.TakePiece` | src/nksrv/lib/mail/headerreader.go:247-379 | A piece of a line, complete or not, leaves the outcome of the whole unchanged |
| `HeaderReader.FinishEarly` | src/nksrv/lib/mail/headerreader.go:272-280 | Finishing the header before a line as soon as its first byte is seen gives the same outcome as finishing it with the whole line |
| `HeaderReader.CanonicaliseSlice` | src/nksrv/lib/mail/common.go:114-125 | The array is canonicalised in place: the same letters, no small one at the start of a word, no capital further on |
| `HeaderReader.MapHeader` | src/nksrv/lib/mail/common.go:130-151 | The key, and the original name when the key does not tell it; a name that is not a common one is its own key, with capitals at the start of its words and nowhere else |
| `Headers.CanonicalTwice` | src/nksrv/lib/mail/common.go:114-125 | Canonicalising twice is canonicalising once |
| `Headers.KeyComesBack` | src/nksrv/lib/mail/common.go:130-151 | The name under which a header is written is read as the same key and original name |
| `Headers.CanonicalIs` | src/nksrv/lib/mail/common.go:114-125 | The canonical form is the one and only way to write the same letters with no small one at the start of a word and no capital further on |
| `Headers.KeyIsTitled` | src/nksrv/lib/mail/common.go:130-151 | A name that is not a common one has its canonical form as key, and the original is kept exactly if it differs |
| `HeaderGrammar.OpensExactly` | src/nksrv/lib/mail/headerreader.go:309-355 | A line opens a header exactly if it is a valid name, any blanks, a colon and anything else |
| `HeaderGrammar.OpensHeader` | src/nksrv/lib/mail/headerreader.go:309-355 | A line of that form opens the header of that name, whatever the blanks, and its content starts behind the blanks after the colon |
| `HeaderGrammar.ContentIs` | src/nksrv/lib/mail/headers.go:19-30 | Content is accepted exactly if it holds no NUL, CR or LF and is the UTF-8 of some characters of Unicode: no overlong form, no surrogate, nothing above U+10FFFF |
| `HeaderGrammar.EitherNewline` | src/nksrv/lib/mail/headerreader.go:295-308 | Headers are read the same whether their lines end with CRLF or with LF alone, and the body behind them is left untouched |
| `Headers.TrimmedValid` | src/nksrv/lib/mail/headers.go:19-30 | Trimming blanks at the end keeps content valid, also as UTF-8 |
| `HeaderWriter.HeaderWriter.WriteHeaderLine` | src/nksrv/lib/mail/headerwriter.go:99-138 | The header is written in lines of the recorded lengths; without force it fails exactly if a line is too long |
| `HeaderWriter.HeaderWriter.WriteHeaderList` | src/nksrv/lib/mail/headerwriter.go:169-180 | All headers are written one after the other, under their original names |
| `HeaderRoundTrip.SplitsBelow` | src/nksrv/lib/mail/headerreader.go:357-378 | For every header that has been read the recorded splits sum to less than the length of the value |
| `HeaderRoundTrip.ReadIsWell` | src/nksrv/lib/mail/headerreader.go:207-398 | Every header that is read has a proper key, valid trimmed content and lines that fold |
| `HeaderRoundTrip.HeadersComeBack` | src/nksrv/lib/mail/headerwriter.go:99-151 | Headers that were read, written and read again are the same tuples, and the body behind them is untouched |
| `HeaderRoundTrip.RereadHeaders` | src/nksrv/lib/mail/headerreader.go:207-398 | The same for the reader itself, under any chunking of what was written |
| `DesInit.StandardCountsAdd` | src/nksrv/lib/utils/unixdescrypt/crypt-des.go:101-429 | On the tables set up from the standard, one call with count m + n gives the same block as a call with m followed by one with n, for all keys and every salt |
| `DesInit.CountsAdd` | src/nksrv/lib/utils/unixdescrypt/crypt-des.go:325-429 | The same on any context, whatever keys and salt it holds |
| `DesInit.StandardThereAndBack` | src/nksrv/lib/utils/unixdescrypt/crypt-des.go:101-429 | On the tables set up from the standard, for all keys, every salt, count and block: a call with the keys in reverse order undoes a call |
| `DesInit.ThereAndBack` | src/nksrv/lib/utils/unixdescrypt/crypt-des.go:325-429 | The same on any context |
| `Des.RepeatedBack` | src/nksrv/lib/utils/unixdescrypt/crypt-des.go:325-429 | The specification of a call is undone by itself with the rounds in reverse order, whenever the permutations at its two ends cancel |
| `Des.CycleBack` | src/nksrv/lib/utils/unixdescrypt/crypt-des.go:359-404 | Sixteen rounds and the exchange of the halves are undone by the same with the rounds in reverse order |
| `DesInit.NewContext` | src/nksrv/lib/utils/unixdescrypt/crypt-des.go:101-246 | The context set up from the tables of the standard is valid, and its permutations are those of the standard |
| `DesInit.InvertIp` | src/nksrv/lib/utils/unixdescrypt/crypt-des.go:134-139 | The final permutation is the table of the standard, and the initial one undoes it in both directions |
| `DesInit.InvertPbox` | src/nksrv/lib/utils/unixdescrypt/crypt-des.go:231-234 | The inverted table of the P-box is the inverse of the P-box of the standard |
| `Des.RepeatedAdds` | src/nksrv/lib/utils/unixdescrypt/crypt-des.go:325-429 | Running with count m and then with count n equals running with m + n whenever the permutations in between cancel, as DesInit shows they do |
| `Des.RepeatedNever` | src/nksrv/lib/utils/unixdescrypt/crypt-des.go:325-429 | Count zero leaves the block as it is whenever the permutations cancel |
| `Des.CyclesAdd` | src/nksrv/lib/utils/unixdescrypt/crypt-des.go:355-405 | The cycles between the permutations add up |
| `Des.DesContext.DoDes` | src/nksrv/lib/utils/unixdescrypt/crypt-des.go:325-429 | The table-driven code computes the permutation, the cycles and the final permutation of the specification |
| `Des.DesContext.TakeCycles` | src/nksrv/lib/utils/unixdescrypt/crypt-des.go:355-405 | count cycles are computed, none for a negative count |
| `Des.DesContext.TakeRounds` | src/nksrv/lib/utils/unixdescrypt/crypt-des.go:359-404 | Sixteen rounds and the swap are computed |
| `Des.DesContext.TakeRound` | src/nksrv/lib/utils/unixdescrypt/crypt-des.go:360-400 | One round: expansion, salt, key, substitution and permutation of the specification |
| `Des.DesContext.SetupSalt` | src/nksrv/lib/utils/unixdescrypt/crypt-des.go:248-262 | The salt bits are the bits of the salt in reverse order |
| `DesPermutation.MovedBack` | src/nksrv/lib/utils/unixdescrypt/crypt-des.go:325-429 | An inverse permutation of the bits undoes a permutation |
| `DesPermutation.MakeEntry` | src/nksrv/lib/utils/unixdescrypt/crypt-des.go:161-186 | An entry of an OR-mask table holds exactly the bits the permutation moves there |
| `DesPermutation.Masks.Permute` | src/nksrv/lib/utils/unixdescrypt/crypt-des.go:336-353 | OR-ing eight table entries permutes the bits of the block |
| `DesRound.Expand` | src/nksrv/lib/utils/unixdescrypt/crypt-des.go:363-375 | The shifts and masks are the expansion to 48 bits |
| `DesRound.AddSaltAndKey` | src/nksrv/lib/utils/unixdescrypt/crypt-des.go:381-383 | The salt swaps the chosen pairs of bits, and the key is added |
| `DesRound.Boxes.Lookup` | src/nksrv/lib/utils/unixdescrypt/crypt-des.go:389-393 | Four lookups compute the eight S-boxes and the P-box |
| `DesRound.TwelveBits` | src/nksrv/lib/utils/unixdescrypt/crypt-des.go:110-128 | A combined S-box entry holds the values of both its S-boxes |
| `DesRound.MakePEntry` | src/nksrv/lib/utils/unixdescrypt/crypt-des.go:231-245 | An entry of the P-box table holds exactly the bits the P-box moves there |
| `DesTables.IpNamesOnce` | src/nksrv/lib/utils/unixdescrypt/tables_nofmt.go:3-8 | The initial permutation names every bit once |
| `DesTables.PboxNamesOnce` | src/nksrv/lib/utils/unixdescrypt/tables_nofmt.go:89-94 | The P-box names every bit once |
| `DesTables.Invert` | src/nksrv/lib/utils/unixdescrypt/crypt-des.go:134-139 | The loops make tables that are inverse to each other |
| `DesTables.InverseBothWays` | src/nksrv/lib/utils/unixdescrypt/crypt-des.go:134-139 | They are inverse in both directions |
| `Server.CleanShutdown` | src/nksrv/lib/nntp/server.go:287-327 | When Close is about to clear the flag, no Serve call and no handler is at work and no connection is left, in every interleaving |
| `Server.OneCloser` | src/nksrv/lib/nntp/server.go:287-299 | Only one Close call gets past the guard |
| `Server.CloseWaitsForStopped` | src/nksrv/lib/nntp/server.go:293-316 | While Close waits, the listener of every registered Serve call that is not leaving has been closed, and later the connection of every running handler |
| `ServerProgress.CloseFinishes` | src/nksrv/lib/nntp/server.go:287-327 | While a Close call is under way some step other than a new call or a new connection can be taken, such steps can always lead it to its return, and no schedule of such steps goes on for longer than the work there is before it has returned |
| `ServerProgress.WorkFalls` | src/nksrv/lib/nntp/server.go:244-327 | While the server is closing, every step other than a new call or a new connection leaves less work |
| `ServerProgress.CloseMoves` | src/nksrv/lib/nntp/server.go:287-327 | While the server is closing, whoever Close waits for can take a step |
| `ServerProgress.AcceptRetries` | src/nksrv/lib/nntp/server.go:255-272 | After a failed accept a Serve call can go back to accepting, on the listener it is registered for, unless the server is closing |
| `ServerProgress.ServeStarts` | src/nksrv/lib/nntp/server.go:120-135 | While the server is not closing, a new Serve call on a listener that no other call serves registers it and comes to accept on it |
| `ServerProgress.AcceptedIsServed` | src/nksrv/lib/nntp/server.go:255-285 | From every reachable state a connection that is accepted can be tracked and given to a running handler, and the Serve call goes on accepting |
| `Server.NoLateConnection` | src/nksrv/lib/nntp/server.go:120-164 | Once all Serve calls are gone no connection is added to what Close waits for |
| `Server.CountersSuffice` | src/nksrv/lib/nntp/server.go:120-164 | The wait groups never go below zero |
| `Server.StepKeeps` | src/nksrv/lib/nntp/server.go:244-327 | Every step of Serve, of a handler and of Close keeps the invariant |
| `Server.RunKeeps` | src/nksrv/lib/nntp/server.go:244-327 | The invariant holds after every run |
| `Puller.ResponsesMatch` | src/nksrv/lib/nntp/client_puller.go:516-678 | The k-th response is handled with the id and message-id of the k-th request, in every interleaving of the two goroutines |
| `Puller.InStepUnlessDropped` | src/nksrv/lib/nntp/client_puller.go:533-678 | After a return without a fatal error a response has been read for every request exactly unless the worker had ended with an error, which an error of the database made the call throw away, with requests still in the channel; the unread ones are those in the channel |
| `Puller.DroppedError` | src/nksrv/lib/nntp/client_puller.go:533-588 | Counterexample: a run in which the database fails on the third article after the worker ended on the first, so that the call returns without a fatal error and one response is left unread |
| `Puller.WorkerErrorIsFatal` | src/nksrv/lib/nntp/client_puller.go:538-551 | A fatal error of the worker is reported as fatal unless an error of the database made the call throw it away |
| `Puller.WorkerNeverLeaks` | src/nksrv/lib/nntp/client_puller.go:516-678 | On every return the worker is gone and its end was received exactly once; that it ended without being told to is never seen |
| `Puller.NoDeadlock` | src/nksrv/lib/nntp/client_puller.go:516-678 | Until the call returns there is always a step to take |
| `Puller.MaxidFromList` | src/nksrv/lib/nntp/client_puller.go:480-492 | The number reported is -1 or the highest of the ids that were disposed of, all of which come from the list given |
| `Puller.StepKeeps` | src/nksrv/lib/nntp/client_puller.go:416-678 | Every step keeps the invariant |
| `Puller.RunKeeps` | src/nksrv/lib/nntp/client_puller.go:416-678 | The invariant holds after every run |
| `GroupSlices.WorkOff` | src/nksrv/lib/nntp/client_puller.go:472-678 | The list is worked off by a run of the two goroutines that returns; without a failure every entry, in order, has been found unwanted and disposed of, or been asked for with its own id and message-id and its response been read |
| `PullerList.ListUsedUp` | src/nksrv/lib/nntp/client_puller.go:472-678 | On a return without a failure the list is used up: there was an answer about every entry, and the requests are those of the wanted ones, in order, each with its own id, message-id and data; all of them have been handled, and the unwanted ones disposed of |
| `PullerList.CanBeWorkedOff` | src/nksrv/lib/nntp/client_puller.go:472-678 | For every list and whatever the database answers about its articles, there is a run with these answers that returns without a failure |
| `PullerVerdict.VerdictIs` | src/nksrv/lib/nntp/client_puller.go:472-678 | In every run the call fails exactly if sending, asking the database or handling a response did; the failure is fatal exactly if sending failed, or handling did and the database did not; and the error of the worker is thrown away exactly if something else failed too |
| `PullerVerdict.DisposedAre` | src/nksrv/lib/nntp/client_puller.go:480-492 | In every run the articles disposed of are, one after the other, those the database did not want and those whose response was fine, the n-th response being that to the n-th request |
| `GroupSlices.KeptWhole` | src/nksrv/lib/nntp/client_puller.go:681-735 | What is kept of a listing are the lines whose ids were asked for, in order and from the front, as many as there is room for |
| `GroupSlices.RoomForAll` | src/nksrv/lib/nntp/client_puller.go:681-735 | A listing that names no number twice is kept whole: there is room for all that a range asks for |
| `GroupSlices.ProcessList` | src/nksrv/lib/nntp/client_puller.go:472-678 | What the run of the two goroutines reached is returned, with whether it failed and whether that is fatal, and recorded exactly if it is above the last one |
| `GroupSlices.MaxidInRange` | src/nksrv/lib/nntp/client_puller.go:480-492 | What such a run reaches lies in the range that was asked for |
| `GroupSlices.EatGroupSlice` | src/nksrv/lib/nntp/client_puller.go:808-994 | For a listed range the result and its errors are those of a run over the lines asked for; at most one number is recorded; it lies in the range and above the last one |
| `GroupSlices.EatGroup` | src/nksrv/lib/nntp/client_puller.go:996-1041 | The requested ranges follow one another from old_id + 1, the last one is open, and the recorded ids strictly increase and exceed old_id |
| `GroupSlices.TilesCover` | src/nksrv/lib/nntp/client_puller.go:996-1041 | Every number up to the last range is in exactly one requested range |
| `GroupSlices.TilesApart` | src/nksrv/lib/nntp/client_puller.go:996-1041 | The ranges are disjoint and in order |
| `GroupSlices.TilesAsk` | src/nksrv/lib/nntp/client_puller.go:996-1041 | Every positive number up to the last range is asked for in exactly one of the ranges |

## Left out

- `MultiReader.PartReader.NextPart`: does not model that the reader is closed after an error, nor the inner `BufReader` put on top of a part; draining a part reads from the part itself.
- `MultiSplit.ReadMessage`: a message without its closing delimiter is not well-terminated and nothing is promised of its parts.
- `MultiReader.PartReader.Read`: says nothing for streams that fail with an error other than EOF, or whose delimiter lines do not fit the buffer; the code for them is modelled and stays within its bounds.
- `MultiRoundTrip.ReadParts`: takes parts as bytes; their headers are not parsed there.
- `MultiWriter.PartWriter.StartNextPart`: the part's header is given as text, and the writer below never fails.
- `HeaderReader.ReadHeaderIntoFunc`: gives the headers in order; grouping them by key in a map, the estimate of their number and the limit on their size are not modelled.
- `HeaderReader.MapHeader`: the common names are any map whose values stand for themselves and are valid names; the entries of the source's map are not listed.
- `HeaderWriter.HeaderWriter.WriteHeaderList`: the fixed order in which a header map is written is not modelled, nor is a writer that fails.
- `YEnc.YDecoder.Fetch`: leaves open whether a line of less than two bytes is skipped, because the code's answer depends on what the buffer held before.
- `YEnc.YDecoder.Read`: promises the text for streams of data lines; `WriteTo` is not modelled.
- `YEnc.YEncoder.Write`: the writer below never fails, so recovery from its errors is not modelled.
- `Copyer.FullNNTPCopyer.CopyFrom`: only the copier of whole articles is modelled; the counts of the copiers of heads and bodies are of output bytes and do not serve as offsets.
- `XFacePredictor.GenerateFace`: the entries of the two guess tables used for column 48 are not listed, since no pixel of a face of 48 columns has that context; their lengths do not matter either.
- `DesRound.Boxes.Lookup`: holds for any S-boxes of four-bit values; the constants of the eight S-boxes are not listed.
- `Des.DesContext.DoDes`: holds for any sixteen pairs of round keys; the key schedule and the text that `CryptDES` produces are not modelled.
- `Server.CleanShutdown`: a handler ends at some time after its connection is closed; what it does before is not modelled.
- `CacheProgress.NoDeadlock`: says that a step can be taken, not that a scheduler takes it.
- `CacheServed.EveryCallCanBeServed`: says that steps can lead there; that every fair schedule does, when other calls come and go, is not shown.
- `ServerProgress.CloseFinishes`: a handler can end at any time; that closing its connection makes it do so is not modelled.
- `Puller.InStepUnlessDropped`: a response that the worker ends on counts as read.
- `Puller.ResponsesMatch`: reading a response drains its body; the answers of the server and of the database are chosen freely.
- `GroupSlices.EatGroupSlice`: the three ways of listing a range are one answer with lines in any order; parsing them is not modelled.
- `PCG32x2` pairs two generators of equal period; nothing bounds how long a pair avoids the accepted words, so its rejection loops are left out. Its threshold shortcut is `PcgBounded.ShortcutIsThreshold`.
- The generators with a fixed increment repeat the modelled ones.
- `RemoveItemStart`, `RemoveItemFinish` and `deleteTimeoutClose` of the cache.
- `SetReader`, `GetReader`, `ResetErr` and `QueuedErr` of `BufReader` only set or get a field.
- In the cache each critical section under a lock, each file operation and each piece of a copy is one step; what the memory model allows within a step is not modelled.
- SQL, HTTP, TLS, templates, thumbnails, captchas, logging and the commands.
