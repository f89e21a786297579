# Verified model of the bzip2 codec, gateway distance and link slots

A Dafny 4.11 model of three parts of the repository, with proofs of what they are for.
`dafny verify dfyconfig.toml` checks all of it.

## What is modelled

**The bzip2 codec** (`esp-idf/components/bzip2/src`), stage by stage in its own imperative form,
each stage against a small pure specification, and then composed.

| stage | encoder | decoder | specification |
|---|---|---|---|
| run lengths | RunEncoder | OutputStage | RunLength, InputRuns, RandTable |
| block sorting | FallbackQuickSort, BlockSort; MainCompare, MainQuickSort, MainRadix, MainSteps, MainSort | BwtDecoder, OutputStage | Rotations, Buckets, BigBuckets, PointerScan, BwtInverse |
| move-to-front, zero runs | MtfEncoder | SlidingMtf, ColumnReader | MoveToFront |
| Huffman codes | HuffmanHeap, HuffmanLengths, TableChoice | HuffmanCodes | HuffmanForest, HuffmanCodes, HuffmanOptimal |
| bits and headers | BitWriter, Sender | BitReader, HeaderReader, Decoder | Bits, BlockFormat, Decompress |
| whole streams | BlockEncoder, Compressor | Decoder | RoundTrip, BlockSize, Packing, StreamSize, Authentic, CrcDetects, EndToEnd, Completion |

The decoder's coroutine is a machine of phases (Decompress): each phase asks for a number of bits and
leads to the next. The pure run of that machine is where parsing is proved to undo printing (ParseBack,
ParseData, RoundTrip); the class Decoder, with its buffers, arrays and save fields, is proved to follow
the machine however its input and output are cut up. The class Compressor is proved to emit the stream
of some sequence of valid blocks that stand for all it took in. EndToEnd puts the two together for any
use of the streaming calls, BufferToBuffer for the two one-call functions, ResourceCodec for the calls the
application makes of them (`Resource.cpp`). Which blocks the input is cut
into may depend on how the calls split it, so equality of streams is not claimed; equality of what they
decode to is. What runs the blocks hold does not depend on it, as long as no flush is asked for (InputRuns,
Compressor.RunsKept), and that bounds the length of a stream by the input alone (StreamSize), from which
the one-call functions owe their success.

What a decoder accepts is pinned from the other side as well: Authentic shows of any input that a run to
the end of a stream has had every checksum right, and CrcDetects what these checksums tell apart.

BoundedDecoder is about this repository's addition, `BZ2_bzDecompressInitBounded`: its five-quarters
argument, how many entries it allocates, soundness on any input, completeness for every stream within the
bound, and the refusal of longer blocks.

**Gateway distance** (`esp-idf/src/rnsd_gateway.cpp`). Gateway is the table as a class; GatewayNet runs
any number of such nodes as asynchronous steps: announce, deliver, lose, expire, evict, recompute; distances
never fall below the truth, and rise to "none" when the gateways are gone. GatewaySettle is the way down to the
truth, GatewayRows what keeps the tables complete on the way, GatewayStale a network whose node never forgets a gateway.

**Outbound link slots** (`esp-idf/src/rnsd.cpp`). LinkSlots is one slot, LinkTable the table under
connects, disconnects, requests, callbacks and ticks, LinkTiming and LinkRuns its runs against the clock,
LinkAnswers which answers are responses, LinkFates what becomes of slots and requests until something is due,
LinkConns the slot array with the handlers.

## What was found

- A discovery mark outlives the gateway: `rnsdGatewayDiscoveryNote` sets it, nothing but expiry clears it, and any
  later declaration renews the row's hearing time. A node with such a row stays at distance 1 whatever the neighbour
  declares (Gateway.DiscoveryOutlivesGateway, GatewayNet.VouchedStaysNear), and there is a network on which this goes
  on for any number of rounds (GatewayStale.StaysAtOne). So "all nodes reach none within eight rounds" holds from
  states in which no row is vouched for, by the operator or by a mark the operator has not overruled, whatever else
  the tables hold (GatewayNet.AllReachNone); and as long as no vouched row is lost it holds exactly from those
  (GatewayNet.NoneExactlyUnvouched). For one table the condition is Gateway.NoneExactlyWhen.
- `BZ2_bzBuffToBuffCompress` with no input and no room answers SEQUENCE_ERROR and not OUTBUFF_FULL, because
  `BZ2_bzCompress` made no progress; for good parameters this is the case in which it does, and the only one
  (BufferToBuffer.Compress).
- A completed FLUSH may leave bits of the last block in the bit buffer, at most 32: all that was taken in is in
  blocks, but what has been given out need not reach the end of the last of them (Compressor.FlushedOut).

## Model

| member | source | states |
|---|---|---|
| BufferToBuffer.Compress | esp-idf/components/bzip2/src/bzlib.c:1271-1319 | A whole buffer in one FINISH call. PARAM_ERROR exactly for parameters out of range, SEQUENCE_ERROR exactly for no input with no room. Otherwise there is a stream that holds exactly the longest runs of the source, in blocks full but for the last one, and the answer is OK with all of it if it fits the room, else OUTBUFF_FULL with as much of it as there is room for. It is never longer than StreamBound, which counts the bytes of the run form of the source and the values that occur in it, so OK is owed from there on |
| BufferToBuffer.Decompress | esp-idf/components/bzip2/src/bzlib.c:1323-1386 | For any input at all: OK if and only if the stock decoder comes to the end of a stream within the room, and then with exactly its output, every block's checksum and the combined one right. For the bytes of any stream: OK with exactly what its blocks stand for if there is room (an exact fit included), else OUTBUFF_FULL with the first part of it; a stream cut off anywhere is UNEXPECTED_EOF or OUTBUFF_FULL with a first part of the original, never OK, in FAST and SMALL mode alike |
| ResourceCodec.Compress | esp-idf/components/microreticulum/src/Resource.cpp:146-161 | bz2_compress fails on no input; on any other it succeeds exactly if the stream at block size 1, which holds just the longest runs of the input in full blocks, is shorter than the input, and then gives that stream. So it succeeds on every input whose StreamBound is below its length, as it is for every run of 300 or more equal bytes (StreamSize.LongRun) |
| ResourceCodec.StreamDecompress | esp-idf/components/microreticulum/src/Resource.cpp:93-126 | For any input at all: the bounded decompression succeeds if and only if the stock decoder comes to the end of a stream on it with at most cap bytes out, randomised blocks included, and then gives exactly those, which the checksums in the stream vouch for |
| ResourceCodec.DecompressTo | esp-idf/components/microreticulum/src/Resource.cpp:128-137 | bz2_decompress succeeds exactly if the stream has just the advertised size |
| ResourceCodec.DecompressBounded | esp-idf/components/microreticulum/src/Resource.cpp:139-144 | bz2_decompress_bounded succeeds exactly on no input, or on a stream of at most max_out bytes with max_out above 0 |
| ResourceCodec.Arrives | esp-idf/components/microreticulum/src/Resource.cpp:93-161 | What bz2_compress sends is taken by both decompressors, at any bound that is no smaller than the payload, and gives the payload back |
| EndToEnd.TellsOf | esp-idf/components/bzip2/src/bzlib.c:832-882 | Whatever the input, the decoder object fed a first part of it is consistent with the run over all of it: at STREAM_END it has given out what the run gives, and it neither fails nor starves nor stops for room where the run ends well within the room |
| ResourceCodec.TablesBounded | esp-idf/components/bzip2/src/bzlib.c:541-549 | A decoder opened for at most maxOut bytes, 0 < maxOut < 720000, has tables of no more than maxOut + maxOut / 4 + 16 entries, whatever it is fed |
| EndToEnd.StockAttests | esp-idf/components/bzip2/src/bzlib.c:842-874 | What the stock decoder gives out up to the end of a stream is what the checksums read vouch for: each block's its own bytes, and the last field the fold of them all |
| EndToEnd.WrongSumRefused | esp-idf/components/bzip2/src/bzlib.c:871-872 | On a stream whose last field is anything but the fold of its blocks' checksums, whatever follows, the stock decoder never comes to the end |
| Completion.StoppedShort | esp-idf/components/bzip2/src/bzlib.c:448-462 | Whenever FINISH stops for want of room, what has been given out is a proper first part of a stream that stands for all that was taken in and the input still to come; and unless a flush was asked for, of one that holds just the longest runs of all of that, in full blocks |
| Completion.PackedFits | esp-idf/components/bzip2/src/bzlib.c:362-405 | A stream of the longest runs of its source, in blocks full but for the last one, is no longer than StreamBound of the source |
| Packing.Packed | esp-idf/components/bzip2/src/bzlib.c:362-405 | Behind any full blocks there are blocks for any runs that are left, full but for the last one |
| Packing.AnyPlan | esp-idf/components/bzip2/src/compress.c:601-666 | Every block of up to 900000 bytes has a plan: a sorting order of its rotations, and codes that can be decoded over just the values in it |
| Completion.FinishedPacked | esp-idf/components/bzip2/src/bzlib.c:362-405 | A stream finished without a flush holds exactly the longest runs of all the input, however the calls split it, in blocks that are full but for the last one |
| StreamSize.StreamFits | esp-idf/components/bzip2/src/bzlib.c:362-405 | A stream whose runs are runs of the source, in blocks full but for the last one, with codes of at most 17 bits and no symbols but for the values in the block, is no longer than StreamBound of the source |
| StreamSize.BoundByLength | esp-idf/components/bzip2/src/bzlib.c:362-405 | For every input StreamBound is at most three bytes for each byte and 6457 more |
| StreamSize.LongRun | esp-idf/components/microreticulum/src/Resource.cpp:146-161 | For a run of 300 or more equal bytes StreamBound is below the length of the run, at every block size |
| BlockSize.NeatLength | esp-idf/components/bzip2/src/compress.c:494-593 | A block of n bytes with codes of at most 17 bits takes no more than 198 bits for each symbol of its alphabet, 17 for each byte, 6 for each fifty of them and 448 more |
| EndToEnd.OnBytes | esp-idf/components/bzip2/src/bzlib.c:832-882 | However a stream is fed in pieces and its output taken in pieces, there is no error and nothing comes out but the original in order; STREAM_END comes just when all of the stream is in and all of the original is out; more input is never asked for than the stream holds |
| EndToEnd.Lossless | esp-idf/components/bzip2/src/bzlib.c:409-466 | Decoding what any sequence of RUN, FLUSH and FINISH calls emitted gives exactly the bytes consumed, for every level and every split of input and output on both sides, block and stream checksums matching |
| Compressor.Compressor.BzCompress | esp-idf/components/bzip2/src/bzlib.c:409-466 | One call in any mode: consumed input stays equal to finished blocks, current block and pending run. Out of turn: SEQUENCE_ERROR and no effect. RUN: RUN_OK exactly on progress, and PARAM_ERROR only for want of input or room. FLUSH: FLUSH_OK only with the room used up; RUN_OK when all that was taken in is in blocks and these are given out but for the bits in the bit buffer. FINISH: STREAM_END exactly when the mode turns to idle, with all input taken and a complete stream given out; FINISH_OK only with the room used up; SEQUENCE_ERROR exactly without progress, and that only with no room |
| Compressor.Compressor.WriteClose | esp-idf/components/bzip2/src/bzlib.c:1069-1087 | FINISH repeated, with any room each time, is never refused and comes to the end of the stream, with all the input taken and all of the stream written |
| Compressor.Compressor.HandleCompress | esp-idf/components/bzip2/src/bzlib.c:362-405 | The loop over output and input terminates, stops only for want of room or input or at the end, and keeps input and output accounted for |
| Compressor.Compressor.HandleOnce | esp-idf/components/bzip2/src/bzlib.c:368-402 | One turn of the loop: it takes input or moves on in the order of its states, which is why the loop ends; and the end of a stream, once reached, is not passed over |
| Compressor.Compressor.CopyInput | esp-idf/components/bzip2/src/bzlib.c:290-331 | Input is taken until the block is full or the input, or the part of it expected by a flush or finish, is used up |
| Compressor.Compressor.CopyOutput | esp-idf/components/bzip2/src/bzlib.c:335-358 | Output is given until the room or the compressed block is used up |
| Compressor.Compressor.CompressBlock | esp-idf/components/bzip2/src/compress.c:601-666 | Header before the first block, block if there is one, trailer and fill bits after the last: the stream so far is header and blocks, the combined checksum is theirs, and the bytes built stay within the buffer behind the block |
| Compressor.Compressor.PrepareNewBlock | esp-idf/components/bzip2/src/bzlib.c:118-129 | A new block starts empty with the pending run kept and nothing already given out lost |
| RunEncoder.Front.AddPair | esp-idf/components/bzip2/src/bzlib.c:217-249 | The pending run joins the block as one to five bytes that stand for it; checksum and in-use map follow |
| RunEncoder.Front.AddChar | esp-idf/components/bzip2/src/bzlib.c:262-286 | One byte taken in, fast track or not: what block and pending run stand for grows by exactly that byte, the runs become the longest runs up to 255 of the longer input, and the block stays ten bytes below its size |
| InputRuns.RunFormUnpacks | esp-idf/components/bzip2/src/bzlib.c:217-286 | For every input, the longest runs up to 255, written as bytes, unpack to the input: the first run-length stage loses nothing |
| InputRuns.RunsExtend | esp-idf/components/bzip2/src/bzlib.c:262-286 | Whatever input follows, only the last run can still change: the runs in finished blocks stay runs of the whole input |
| RunEncoder.Front.FlushRun | esp-idf/components/bzip2/src/bzlib.c:253-258 | The pending run is closed and becomes the last one of the block, and nothing is lost |
| RunEncoder.CrcRun | esp-idf/components/bzip2/src/bzlib.c:222-224 | The checksum is updated once for each byte of the run |
| RunLength.PairsUnpack | esp-idf/components/bzip2/src/bzlib.c:560-705 | Runs that differ from their neighbours or are full, written as pairs, unpack to exactly the bytes they came from, without corruption |
| BlockEncoder.SendBlock | esp-idf/components/bzip2/src/compress.c:601-666 | For every non-empty block the bits of a valid plan for that very block, with codes of at most 17 bits, are appended to the stream |
| BlockEncoder.SortBlock | esp-idf/components/bzip2/src/blocksort.c:1031-1088 | The block is sorted, by either sort, and origPtr found through the arrays of the encoder |
| BlockEncoder.MtfBlock | esp-idf/components/bzip2/src/compress.c:119-231 | The symbols come from the sorted block, the last being the end-of-block symbol |
| MtfEncoder.MakeMaps | esp-idf/components/bzip2/src/compress.c:105-115 | The bytes in use are numbered in ascending order |
| MtfEncoder.GenerateMTFValues | esp-idf/components/bzip2/src/compress.c:119-231 | The 16-bit halves of the pointer array end up holding the move-to-front and zero-run symbols of the last column and the end of block, at most nblock + 1 of them |
| MtfEncoder.UnreadAfter | esp-idf/components/bzip2/src/compress.c:163-207 | As long as no more symbols are written than pointers are read, overwriting the halves destroys no unread pointer |
| MtfEncoder.WriteRun | esp-idf/components/bzip2/src/compress.c:174-188 | A run of zeros is written as its bijective base-2 digits, lowest first |
| MoveToFront.FeedSymbols | esp-idf/components/bzip2/src/decompress.c:388-431 | The decoder's reading of the symbols gives back every last column of up to 900000 bytes; the guard on N rejects none of its runs |
| MoveToFront.RunIsShort | esp-idf/components/bzip2/src/decompress.c:394-403 | A run of z zeros has so few digits that 2 to their number is at most z + 1 |
| MoveToFront.SymbolsInAlphabet | esp-idf/components/bzip2/src/compress.c:155-207 | Every symbol is a run digit or the number of a byte in use |
| BlockSort.BlockSort | esp-idf/components/bzip2/src/blocksort.c:1031-1088 | For every block and every work factor the pointers become a permutation that sorts the rotations of the block, the block stays as it was, and origPtr is the row of the block itself (assertion 1003 cannot fail) |
| BlockSort.MainOrFallback | esp-idf/components/bzip2/src/blocksort.c:1044-1077 | From 10000 bytes on mainSort is tried within the budget of the work factor, and what it leaves unsorted fallbackSort sorts |
| MainSort.MainSort | esp-idf/components/bzip2/src/blocksort.c:750-1011 | Unless the budget is spent, the pointers are a permutation that sorts the rotations; the block stays as it was in any case; and the budget is drawn on only if some twenty bytes begin at two places of the cyclic block |
| MainSort.SortBig | esp-idf/components/bzip2/src/blocksort.c:868-1004 | One round, unless abandoned: its byte was not done before (assertion 1006 cannot fail), the big bucket and every small bucket that ends in its byte are sorted and flagged, and the quadrants still tell the order |
| MainSort.AllSorted | esp-idf/components/bzip2/src/blocksort.c:862-1006 | When all bytes have had their turn, the order by small buckets is the order of whole rotations |
| MainSteps.SortRow | esp-idf/components/bzip2/src/blocksort.c:878-907 | Step 1: the small buckets of the row that no scan has sorted are sorted, (ss, ss) left out, unless the budget is spent |
| MainSteps.ScanBucket | esp-idf/components/bzip2/src/blocksort.c:911-945 | Step 2: without a comparison, every small bucket (c, ss) of a byte not done is filled in the order of its rotations, (ss, ss) included, and the rest stays (assertion 1007 cannot fail, with its second case just for blocks of one byte) |
| MainSteps.UpdateQuadrants | esp-idf/components/bzip2/src/blocksort.c:987-1004 | Step 3: every rotation of the big bucket gets its place in it, shifted by the least shift that fits 16 bits, the others keep their quadrant, and between equal bytes a smaller quadrant goes on meaning a smaller rotation (assertion 1002 cannot fail) |
| MainSteps.HandedTells | esp-idf/components/bzip2/src/blocksort.c:957-985 | Quadrants handed out in the order of a sorted bucket, however coarse the shift, never contradict the order of rotations |
| PointerScan.LeftStep | esp-idf/components/bzip2/src/blocksort.c:923-928 | A step of the scan from the left keeps every filled stretch the ordered predecessors of the scanned one, finds room, and writes only into open small buckets |
| PointerScan.RightStep | esp-idf/components/bzip2/src/blocksort.c:929-934 | The mirrored step from the right; the two never meet before their buckets are full |
| PointerScan.ScansMeet | esp-idf/components/bzip2/src/blocksort.c:911-945 | The two scans together reach every rotation of the bucket, so that each open small bucket is filled exactly, unless all bytes are equal |
| PointerScan.SmallDone | esp-idf/components/bzip2/src/blocksort.c:911-917 | What fills a small bucket are its own rotations, all different, in order |
| BigBuckets.BackOrder | esp-idf/components/bzip2/src/blocksort.c:911-917 | Two rotations that begin alike are in the order of the rotations one byte on |
| BigBuckets.LowBelowHigh | esp-idf/components/bzip2/src/blocksort.c:911-917 | A rotation that leaves its run of a byte downwards is smaller than one that leaves it upwards |
| MainRadix.TallyPairs | esp-idf/components/bzip2/src/blocksort.c:769-793 | ftab counts every pair of adjacent bytes, the pair around the end included |
| MainRadix.Distribute | esp-idf/components/bzip2/src/blocksort.c:802-830 | The radix pass leaves a permutation with every rotation in the small bucket of its two bytes, and ftab at the bucket starts |
| MainRadix.RunningOrder | esp-idf/components/bzip2/src/blocksort.c:832-860 | The shell sort gives every byte once, from the smallest big bucket to the largest |
| MainCompare.MainGtU | esp-idf/components/bzip2/src/blocksort.c:345-469 | The comparison through block, overshoot and quadrants never says greater of a smaller rotation nor the reverse, and terminates on periodic blocks; the budget pays for exactly the groups of eight that agree in bytes and quadrants behind the first twelve bytes, at most once around the block |
| MainQuickSort.MainQSort3 | esp-idf/components/bzip2/src/blocksort.c:620-717 | The range becomes sorted by whole rotations unless the budget is spent, stays a permutation in any case, and the stack of 100 never holds more than 29 (assertion 1001 cannot fail); work counts only against repetition in the block |
| MainQuickSort.MainSimpleSort | esp-idf/components/bzip2/src/blocksort.c:484-555 | The shell sort by increments, unless abandoned, sorts a range of rotations that agree in their first d bytes, and permutes only within it |
| BlockSort.FallbackSort | esp-idf/components/bzip2/src/blocksort.c:211-329 | For every block, periodic ones included: fmap a permutation in non-descending order of cyclic rotations, and the block restored in eclass8 |
| BlockSort.DoublePasses | esp-idf/components/bzip2/src/blocksort.c:259-313 | The doubling loop ends with the rotations sorted, each pass having ordered them by twice as many bytes with the header bits marking exactly the classes of equal prefixes |
| BlockSort.SortPass | esp-idf/components/bzip2/src/blocksort.c:273-309 | One pass takes order and marks from H to 2H bytes, and counts nothing not done only if all classes are single |
| BlockSort.RefineClass | esp-idf/components/bzip2/src/blocksort.c:294-305 | Sorting one class by the class numbers H on and marking its heads refines it to 2H bytes |
| BlockSort.PassSorts | esp-idf/components/bzip2/src/blocksort.c:311-312 | When the loop stops, by length or by having only single classes, the order is that of whole rotations |
| BlockSort.FillBuckets | esp-idf/components/bzip2/src/blocksort.c:231-241 | The radix pass leaves a permutation ordered by first byte, and ftab at the bucket starts |
| BlockSort.AssignClasses | esp-idf/components/bzip2/src/blocksort.c:266-271 | eclass holds for each rotation the head of the class of the rotation H bytes on, written while it overlays the block |
| BlockSort.NextClass | esp-idf/components/bzip2/src/blocksort.c:277-292 | The next class of more than one is found, word skips included; the sentinels stop every scan inside the table |
| BlockSort.SkipBits | esp-idf/components/bzip2/src/blocksort.c:278-283 | Stepping by bits to a word boundary, by words, and by bits again finds the first differing bit |
| BlockSort.SetHeads | esp-idf/components/bzip2/src/blocksort.c:300-304 | A head bit is set exactly where the class number changes |
| BlockSort.RestoreBlock | esp-idf/components/bzip2/src/blocksort.c:322-328 | The destroyed block is rebuilt from the sorted order and the byte counts (assertion 1005 cannot fail) |
| FallbackQuickSort.QSort3 | esp-idf/components/bzip2/src/blocksort.c:92-180 | The range becomes ordered by eclass and stays a permutation, and the 100-entry stack never overflows for ranges up to 900000 (assertion 1004 cannot fail) |
| FallbackQuickSort.SimpleSort | esp-idf/components/bzip2/src/blocksort.c:30-59 | Insertion in steps of four and then one sorts the range and permutes only within it |
| FallbackQuickSort.Partition | esp-idf/components/bzip2/src/blocksort.c:121-151 | Three-way partition: equal at both ends, smaller and larger between, still a permutation |
| FallbackQuickSort.VSwap | esp-idf/components/bzip2/src/blocksort.c:66-76 | Two disjoint stretches change places |
| FallbackQuickSort.StackShallow | esp-idf/components/bzip2/src/blocksort.c:165-178 | With the larger part pushed first, a range above the threshold has fewer than 20 ranges below it on the stack |
| FallbackQuickSort.RoundKeeps | esp-idf/components/bzip2/src/blocksort.c:99-180 | Replacing a range by the parts of its partition keeps the stack covering all that is unsorted, and shrinks the work |
| Rotations.KeyIsLexicographic | esp-idf/components/bzip2/src/blocksort.c:311-312 | The numeric keys used for prefixes order rotations lexicographically |
| BwtInverse.WalkRecoversBlock | esp-idf/components/bzip2/src/decompress.c:570-589 | From any order that sorts the rotations, ties broken any way, the walk from origPtr fetches the block, however many cycles T has |
| BwtInverse.BackRotates | esp-idf/components/bzip2/include/bzlib_private.h:450-455 | One step of the walk leads to a row equal to the next rotation |
| BwtInverse.RowsMatch | esp-idf/components/bzip2/src/decompress.c:507-518 | Rows of equal first byte are in the order of their last-column occurrences |
| BwtDecoder.BuildCftab | esp-idf/components/bzip2/src/decompress.c:507-535 | From the byte counts of a column come its bucket starts, and none of the range and order checks on counts and starts can fail |
| BwtDecoder.BuildLinks | esp-idf/components/bzip2/src/decompress.c:570-575 | tt holds in its upper 24 bits the inverse of the slot of each position, its lower byte untouched, within 32 bits |
| BwtDecoder.SetGet | esp-idf/components/bzip2/include/bzlib_private.h:464-479 | SET_LL and GET_LL are lossless for positions below 900000 and leave the neighbours alone |
| BwtDecoder.SetLL | esp-idf/components/bzip2/include/bzlib_private.h:473-476 | One entry of the packed pair of arrays changes |
| BwtDecoder.BuildForward | esp-idf/components/bzip2/src/decompress.c:541-549 | The T vector in 16 and 4 bits holds each position's slot |
| BwtDecoder.ReverseCycle | esp-idf/components/bzip2/src/decompress.c:551-560 | Pointer reversal terminates and turns round exactly the cycle through origPtr |
| BwtDecoder.IndexIntoF | esp-idf/components/bzip2/src/bzlib.c:711-722 | The binary search gives the first-column byte of a row |
| OutputStage.FastWalks | esp-idf/components/bzip2/include/bzlib_private.h:450-462 | FAST links fetch the bytes along the inverse transform |
| OutputStage.SmallWalks | esp-idf/components/bzip2/include/bzlib_private.h:481-485 | SMALL links fetch the same bytes, never leaving the reversed cycle |
| OutputStage.Output.Begin | esp-idf/components/bzip2/src/decompress.c:503-596 | Both preparations leave the same bytes to be fetched, the first of them at hand, with no corruption; of a randomised block the bytes are those with the flipped bits put right |
| OutputStage.Output.NextByte | esp-idf/components/bzip2/include/bzlib_private.h:135-148 | The next byte of a block is fetched in either form, and in a randomised block flipped back where the table says so, the place in the table following the bytes fetched |
| RandTable.Twice | esp-idf/components/bzip2/src/randtable.c:29-82 | Flipping the bits at the distances of the table a second time gives the bytes back: what a randomising encoder did is undone |
| RandTable.FlippedAt | esp-idf/components/bzip2/include/bzlib_private.h:135-148 | Just the second last byte of each distance is flipped, all distances of the table laid end to end, over and over |
| OutputStage.Output.TakeRunFast | esp-idf/components/bzip2/src/bzlib.c:663-687 | The FAST form takes the next run as the run-length rules say |
| OutputStage.Output.UnRleFast | esp-idf/components/bzip2/src/bzlib.c:610-704 | FAST: whatever the room, what is written and what is owed remain the block's whole output; it stops only for room, at the end, or on corruption |
| OutputStage.Output.UnRleSmall | esp-idf/components/bzip2/src/bzlib.c:734-826 | SMALL, and randomised blocks in both forms: the same contract as FAST |
| OutputStage.Output.UnRle | esp-idf/components/bzip2/src/bzlib.c:836-841 | Over all calls the output of a block is that of unpacking it in one piece, in both forms; nblock_used and state_out_len tell the end exactly |
| OutputStage.Output.MoreToGive | esp-idf/components/bzip2/src/bzlib.c:842-856 | A sound block that is not finished has at least one more byte to give, so an exact-size buffer suffices |
| SlidingMtf.MtfList.Init | esp-idf/components/bzip2/src/decompress.c:371-383 | The sixteen windows hold the identity list |
| SlidingMtf.MtfList.MoveToFront | esp-idf/components/bzip2/src/decompress.c:441-488 | The two-level structure does what a plain 256-entry list does, for every position |
| SlidingMtf.MtfList.MoveAcross | esp-idf/components/bzip2/src/decompress.c:460-477 | The general case: windows shift by one across lines and stay disjoint and inside the array |
| SlidingMtf.MtfList.Repack | esp-idf/components/bzip2/src/decompress.c:478-487 | Recompaction over itself destroys nothing unread and leaves the list as it was |
| ColumnReader.Column.FlushRun | esp-idf/components/bzip2/src/decompress.c:411-431 | A pending run is stored and counted, or refused exactly when it does not fit the limit |
| ColumnReader.Column.MoveSymbol | esp-idf/components/bzip2/src/decompress.c:433-497 | A moved byte is stored and counted, or refused exactly when the block is full |
| ColumnReader.Column.TakeSymbol | esp-idf/components/bzip2/src/decompress.c:388-500 | A symbol is taken as the list rules say: a run digit within the guard, or a byte behind the pending run |
| HuffmanLengths.MakeCodeLengths | esp-idf/components/bzip2/src/huffman.c:63-148 | Terminates for alphabets of 2 to 258 with every length in 1..maxLen and the Kraft equality, for any frequencies whose total fits a weight. For the frequencies, zeros taken as 1 and halved once for each retry, no lengths of any prefix code have a smaller total; each retry followed upon a cheapest code with a length above maxLen; and there is none for 17 bits if they total less than 6765 |
| HuffmanOptimal.SideBySide | esp-idf/components/bzip2/src/huffman.c:100-104 | Any lengths of a prefix code for the roots can be changed, at no cost, so that the two lightest have the same one |
| HuffmanOptimal.JoinKeeps | esp-idf/components/bzip2/src/huffman.c:100-110 | So joining the two lightest trees keeps it true that whatever lengths the leaves could have, the forest can still be made into one tree that costs no more |
| HuffmanOptimal.TreeIsOptimal | esp-idf/components/bzip2/src/huffman.c:84-121 | The depths in the one tree left are the cheapest code lengths there are for its weights |
| HuffmanOptimal.HeavierNotLonger | esp-idf/components/bzip2/src/huffman.c:100-121 | In a cheapest code no symbol of a larger weight has a longer code |
| HuffmanLengths.ScaledBounds | esp-idf/components/bzip2/src/huffman.c:142-146 | Halving any number of times keeps a weight at least 1 and within two of its share, and keeps the order of weights |
| HuffmanLengths.BuildTree | esp-idf/components/bzip2/src/huffman.c:84-121 | One tree uses up the code space exactly, and is too deep for 17 bits only if the weights total at least 6765 |
| HuffmanLengths.HeightOfSum | esp-idf/components/bzip2/src/huffman.c:29-31 | Joining keeps the Fibonacci bound of height by weight, the height within its byte and the word within 31 bits |
| HuffmanLengths.JoinStep | esp-idf/components/bzip2/src/huffman.c:100-110 | Joining the two lightest trees keeps every tree's weight, mass and height bound |
| HuffmanLengths.TreeLengths | esp-idf/components/bzip2/src/huffman.c:114-121 | The depths read off satisfy the Kraft equality and the Fibonacci bound |
| HuffmanLengths.HalvedSum | esp-idf/components/bzip2/src/huffman.c:142-146 | Halving shrinks the total weight as long as some weight exceeds two on average, so the retry ends |
| HuffmanLengths.ScaleWeights | esp-idf/components/bzip2/src/huffman.c:142-146 | Every leaf weight is halved and kept at least one |
| HuffmanHeap.Push | esp-idf/components/bzip2/src/huffman.c:33-42 | A node enters the queue, which stays a heap |
| HuffmanHeap.DownHeap | esp-idf/components/bzip2/src/huffman.c:44-59 | Sifting down restores the heap and loses no node |
| HuffmanHeap.PopMin | esp-idf/components/bzip2/src/huffman.c:101-102 | The node taken is one of least weight, and the rest stays a heap |
| HuffmanForest.JoinMass | esp-idf/components/bzip2/src/huffman.c:103-106 | A join halves the mass of the two trees joined and leaves the others |
| HuffmanCodes.AssignCodes | esp-idf/components/bzip2/src/huffman.c:152-166 | Codes are assigned canonically, shorter first and in symbol order |
| HuffmanCodes.CodeFits | esp-idf/components/bzip2/src/huffman.c:160-165 | Under Kraft, codes fit their lengths |
| HuffmanCodes.PrefixFree | esp-idf/components/bzip2/src/huffman.c:152-166 | Under Kraft, no code is the beginning of another |
| HuffmanCodes.CreateDecodeTables | esp-idf/components/bzip2/src/huffman.c:170-200 | limit, base and perm hold what the decoder's look-up needs, for any lengths in 1..20, complete or not |
| HuffmanCodes.LookUpInvertsCode | esp-idf/components/bzip2/src/decompress.c:87-101 | Bit by bit, a code is found to be longer until its last bit, and is then its own symbol |
| HuffmanCodes.LookUpStaysInTable | esp-idf/components/bzip2/src/decompress.c:89-100 | For any lengths at all, a value within its limit indexes inside perm |
| HuffmanCodes.LookUpInTables | esp-idf/components/bzip2/src/decompress.c:87-101 | The look-up in the arrays is the look-up by code lengths |
| TableChoice.ChooseTables | esp-idf/components/bzip2/src/compress.c:262-452 | Two to six complete tables of lengths 1..17 and one selector below their number for each group of fifty, refined from the first guess four times over: each time every group goes to a table that is cheapest for it of those before, and then every table is made the cheapest code for just the symbols in the groups it has been given |
| TableChoice.InitialTables | esp-idf/components/bzip2/src/compress.c:280-317 | The first guess divides the alphabet into consecutive stretches, one for each table from the last to the first: a symbol has length 0 in the table that owns it and 15 in the others, and every symbol that occurs is owned |
| TableChoice.Cost | esp-idf/components/bzip2/src/compress.c:356-393 | The cost of a group is the sum of its code lengths and fits 16 bits |
| TableChoice.Cheapest | esp-idf/components/bzip2/src/compress.c:399-405 | No table codes the group in fewer bits than the one chosen |
| TableChoice.Round | esp-idf/components/bzip2/src/compress.c:324-435 | Every group is given to a cheapest table, and the frequencies gathered for a table are how often each symbol occurs in the groups given to it |
| TableChoice.CountGroup | esp-idf/components/bzip2/src/compress.c:410-432 | Counting a group in its table's frequencies keeps them those of the groups given to each table |
| TableChoice.FitTable | esp-idf/components/bzip2/src/compress.c:449-451 | A refitted table is a complete code of lengths 1..17, and the cheapest for its frequencies, halved if need be |
| TableChoice.CountSymbols | esp-idf/components/bzip2/src/compress.c:157-228 | The symbol frequencies are exact, and add up to the number of symbols |
| BitWriter.Writer.Put | esp-idf/components/bzip2/src/compress.c:71-78 | The n low bits follow what was written; the 32-bit buffer never overflows |
| BitWriter.Writer.PutWord | esp-idf/components/bzip2/src/compress.c:82-89 | Four bytes, high first |
| BitWriter.Writer.Finish | esp-idf/components/bzip2/src/compress.c:45-54 | The last bits are filled up with fewer than eight zeros |
| BitWriter.BufferFits | esp-idf/components/bzip2/src/compress.c:58-78 | Live bits and zeros below them fit 32 bits |
| BitReader.Reader.Load | esp-idf/components/bzip2/src/decompress.c:53-61 | A byte joins the live bits |
| BitReader.Reader.Take | esp-idf/components/bzip2/src/decompress.c:46-51 | The next n bits are taken as a number, and the rest stays live |
| Bits.ValEnc | esp-idf/components/bzip2/src/decompress.c:43-65 | Reading n bits that were written gives the number back |
| Bits.EncVal | esp-idf/components/bzip2/src/decompress.c:43-65 | Bits read as a number and written again are the same bits |
| Crc.FoldConcat | esp-idf/components/bzip2/include/bzlib_private.h:165-170 | The checksum of a concatenation is the second part folded on the first, which is how a run joins the checksum of its block |
| Sender.PutMap | esp-idf/components/bzip2/src/compress.c:498-516 | The 16 x 16 map is written |
| Sender.CodeSelectors | esp-idf/components/bzip2/src/compress.c:461-478 | Selectors are move-to-front coded in place |
| Sender.PutUnary | esp-idf/components/bzip2/src/compress.c:522-527 | Selector numbers are written in unary |
| Sender.PutTables | esp-idf/components/bzip2/src/compress.c:531-539 | The length tables are written as first length and differences |
| Sender.PutData | esp-idf/components/bzip2/src/compress.c:544-593 | Each symbol is written with the code of its group's table, and selectors are used up exactly (assertion 3007) |
| Sender.MakeAllCodes | esp-idf/components/bzip2/src/compress.c:481-492 | Every table gets its codes |
| ParseBack.HeaderBack | esp-idf/components/bzip2/src/decompress.c:197-215 | The stream header is read back, with the block limit of its level |
| ParseBack.MapBack | esp-idf/components/bzip2/src/decompress.c:273-291 | The map is read back exactly |
| ParseBack.SelectorsUndone | esp-idf/components/bzip2/src/decompress.c:316-330 | Undoing the selectors' move-to-front coding gives the selectors |
| ParseBack.SelectorsBack | esp-idf/components/bzip2/src/decompress.c:293-312 | Unary selector numbers are read back, inside the rejection limits |
| ParseData.DeltaBack | esp-idf/components/bzip2/src/decompress.c:333-341 | A length coded as a difference is read back, every value on the way inside 1..20 |
| ParseData.AllTablesBack | esp-idf/components/bzip2/src/decompress.c:332-361 | All length tables are read back exactly |
| ParseData.CodeBack | esp-idf/components/bzip2/src/decompress.c:74-102 | The code of a symbol is read bit by bit as that symbol, consuming exactly its length |
| ParseData.SymbolsBack | esp-idf/components/bzip2/src/decompress.c:363-500 | All groups of symbols are read back, each with its own table, to the block's last column |
| RoundTrip.BlockBack | esp-idf/components/bzip2/src/decompress.c:231-598 | The bits of any valid block plan are parsed to its last column and origPtr; randomised blocks are marked as such, and selectors behind those in use, beyond the 18002 there is room for or not, change nothing |
| RoundTrip.SpareUnused | esp-idf/components/bzip2/src/decompress.c:306-313 | With more selectors than groups the symbols are coded by the same tables |
| RoundTrip.BlockUnpacks | esp-idf/components/bzip2/src/decompress.c:570-589 | The block so parsed, flipped back if it was randomised, unpacks to the bytes its runs stand for |
| RoundTrip.StreamBack | esp-idf/components/bzip2/src/bzlib.c:832-882 | Any valid stream, its blocks randomised or not and with any number of selectors to spare, whatever follows it, runs to STREAM_END with exactly its blocks' bytes and nothing of what follows consumed |
| RoundTrip.TrailerBack | esp-idf/components/bzip2/src/bzlib.c:865-873 | A trailer with any checksum, whatever follows it: STREAM_END if it is the fold of the blocks' checksums, a data error if it is not |
| Authentic.Vouched | esp-idf/components/bzip2/src/bzlib.c:841-877 | Whatever the input, and with a bound or not: a run that comes to STREAM_END has read a stream header, then blocks each under the checksum of just the bytes given out for it, then a last field that is the fold of these checksums in order; and it has given out nothing but those blocks |
| Authentic.BlockRun | esp-idf/components/bzip2/src/bzlib.c:842-860 | One block of such a run: its mark, the checksum of the bytes it gives, and whatever is behind it up to the next marker, where the checksum has been folded in |
| Authentic.WrongTrailer | esp-idf/components/bzip2/src/bzlib.c:871-872 | Any valid blocks with any other last field, whatever follows, come to a data error there |
| Authentic.WrongBlockCrc | esp-idf/components/bzip2/src/bzlib.c:854-855 | Behind any valid blocks, a block under any checksum but its own comes to a data error, and nothing of it counts as given out and vouched for |
| Authentic.OneByteOff | esp-idf/components/bzip2/src/bzlib.c:849-855 | So a block that does not give exactly the bytes that were summed, a single one being off, is refused |
| CrcDetects.OneByteDetected | esp-idf/components/bzip2/include/bzlib_private.h:155-170 | Strings that differ in a single byte never have the same checksum |
| CrcDetects.UpdateInjective | esp-idf/components/bzip2/include/bzlib_private.h:165-170 | For each byte the state steps by a permutation, and different bytes step a state differently |
| CrcDetects.CombineInjective | esp-idf/components/bzip2/src/bzlib.c:856-859 | The combined checksum tells apart both what came before and the block's own |
| CrcDetects.TableLinear | esp-idf/components/bzip2/src/crctable.c:31-102 | Every entry of the checksum table is the exclusive or of the entries of its bits |
| CrcDetects.TablePowers | esp-idf/components/bzip2/src/crctable.c:31-102 | The entries at 0 and at the powers of two are the ones printed, which with TableLinear makes up all 256 |
| BlockSize.BlockLength | esp-idf/components/bzip2/src/compress.c:494-593 | A block of n bytes as this encoder makes it takes at most the number of bits counted from the largest tables and selectors and, as the encoder makes its codes, 17 bits for each of n + 1 symbols; from 20 bits for any codes the format allows |
| BlockSize.FitsBehindBlock | esp-idf/components/bzip2/src/compress.c:618 | Header, such a block, trailer and fill bits fit the 4 * (100000 * level + 34) byte buffer behind the block |
| Decompress.RunConcat | esp-idf/components/bzip2/src/decompress.c:139-193 | Resumable: running on a part of the bits and then on the rest is running on all of them |
| Decompress.FailedForGood | esp-idf/components/bzip2/src/bzlib.c:857-876 | What ended the run on a first part ends the run on the whole in the same way |
| Decoder.Decoder.BzDecompress | esp-idf/components/bzip2/src/bzlib.c:832-882 | One call with any input and room: the object follows the bit-level machine; OK only with a block interrupted and the room used up, or all input used and the next field incomplete; STREAM_END and each error exactly in their phases |
| Decoder.Decoder.Receive | esp-idf/components/bzip2/src/decompress.c:106-598 | Bytes are taken in one at a time until a block is ready, the run is over or the input is used up |
| Decoder.Decoder.StepControl | esp-idf/components/bzip2/src/decompress.c:197-361 | A field of a header or of the tables, read into the saved fields, takes the object to the phase the machine goes to; the column is allocated for the block size when the stream header is complete, and the decode tables are built when the last length is read |
| HeaderReader.Field | esp-idf/components/bzip2/src/decompress.c:197-342 | One field of the headers, the map, the selectors or the code lengths changes the loop counters and tables that are saved from one suspension to the next just as the machine changes its phase, errors included, in every state they can be in |
| HeaderReader.NextGroup | esp-idf/components/bzip2/src/decompress.c:281-291 | Groups of sixteen values that are not in use are passed over without reading a bit; after the last group the values in use are listed, and none is an error |
| HeaderReader.AllSelectors | esp-idf/components/bzip2/src/decompress.c:312-327 | Selectors beyond the 18002 there is room for have been read and are forgotten; the others are undone |
| HeaderReader.UndoMtf | esp-idf/components/bzip2/src/decompress.c:315-327 | The loop over the positions undoes the move-to-front coding of the selectors, whatever they are |
| HeaderReader.StoreLength | esp-idf/components/bzip2/src/decompress.c:330-342 | A code length is stored in its table, and the last of a table leads to the next table, the last of all to the symbols |
| Decoder.Decoder.Look | esp-idf/components/bzip2/src/decompress.c:87-101 | One look at the tables decides as the machine does: symbol, one more bit, or error |
| Decoder.Decoder.FinishBlock | esp-idf/components/bzip2/src/bzlib.c:842-854 | A finished block counts as given out only if its checksum matches, and is folded into the combined one |
| Decoder.Decoder.WriteOut | esp-idf/components/bzip2/src/bzlib.c:836-857 | A block is written as far as room allows: interrupted with more to come, finished, or a data error |
| Decoder.Decoder.OnStream | esp-idf/components/bzip2/src/bzlib.c:832-882 | The object-level form of EndToEnd.OnBytes, for a bounded decoder too |
| BoundedDecoder.UnpackedShrinks | esp-idf/components/bzip2/src/bzlib.c:541-546 | A block is at most five quarters of what it unpacks to |
| BoundedDecoder.BlockWithin | esp-idf/components/bzip2/src/bzlib.c:541-549 | A sound block that unpacks to at most maxOut bytes has at most maxOut + maxOut / 4 |
| BoundedDecoder.HeaderTighter | esp-idf/components/bzip2/src/bzlib.c:546-549 | From 720000 on the header's own limit is never the larger one |
| BoundedDecoder.LimitIs | esp-idf/components/bzip2/src/decompress.c:211-216 | The limit in force is the smaller of the header's own and, for 0 < maxOut < 720000, maxOut + maxOut / 4 + 16 |
| BoundedDecoder.BoundedIsBounded | esp-idf/components/bzip2/src/decompress.c:211-227 | On any input, at every point of a bounded run behind the stream header, no more than that many entries are allocated, at every level |
| Decoder.Decoder.ColumnSize | esp-idf/components/bzip2/src/decompress.c:218-227 | The arrays of the object, in FAST or SMALL form, are just as long as that limit says |
| BoundedDecoder.LongBlockRefused | esp-idf/components/bzip2/src/decompress.c:415-434 | Wherever it stands in a stream, a block with more bytes than the limit comes to a data error and nothing of it is given out |
| BoundedDecoder.BoundedRefuses | esp-idf/components/bzip2/src/decompress.c:415-434 | So a stream all of whose blocks but the next are within the limit gives out just those and ends in a data error |
| BoundedDecoder.BoundedIsSound | esp-idf/components/bzip2/src/decompress.c:211-227 | On any input the bounded run either agrees with the unbounded one or fails with a data error having given out a first part of its output |
| BoundedDecoder.BoundedIsComplete | esp-idf/components/bzip2/src/decompress.c:211-227 | Every stream that ends well with at most maxOut bytes runs exactly the same with the bound |
| Gateway.GatewayTable.FindOrAlloc | esp-idf/src/rnsd_gateway.cpp:105-120 | The row of the neighbour, else the first free row, else the oldest, made blank. A row in use is given up only if none is free and the neighbour has none; in every other case all rows in use stay as they were |
| Gateway.RowsKept | esp-idf/src/rnsd_gateway.cpp:105-120 | A neighbour with a row changes nothing; one without takes a free row if there is any, and no other row changes; only in a full table it takes the place of another, one heard longest ago while hearing times stay below half the clock's range |
| Gateway.OldestIsLeast | esp-idf/src/rnsd_gateway.cpp:107-113 | With hearing times less than half the clock's range apart, the row evicted is one heard longest ago |
| Gateway.GatewayTable.Recompute | esp-idf/src/rnsd_gateway.cpp:123-165 | Just the rows heard within the horizon stay, the distance is the best of them plus one or 0 for a gateway, and an announce is owed exactly when it moved after the first publication |
| Gateway.RestsOnFreshRows | esp-idf/src/rnsd_gateway.cpp:131-143 | A finite distance is one more than what some row heard within the horizon counts as, and no such row offers less: a stale row never counts |
| Gateway.OperatorDecides | esp-idf/src/rnsd_gateway.cpp:95-103 | A neighbour that the operator calls a gateway gives distance 1; one called none gives nothing, whatever it declares and however it was marked |
| Gateway.BestHasWitness | esp-idf/src/rnsd_gateway.cpp:131-143 | A distance k in 1..7 has a row that counts as k - 1, and no row offers less |
| Gateway.GatewayTable.Note | esp-idf/src/rnsd_gateway.cpp:189-215 | A declaration is capped and stored; the distance is recomputed exactly when the row changed, and an announce is owed exactly when it moved after the first publication; the re-air condition and its clock |
| Gateway.NoteRowOthers | esp-idf/src/rnsd_gateway.cpp:189-215 | A declaration leaves every other neighbour's row as it was, or takes its place; the mark of a row made anew is clear |
| Gateway.GatewayTable.DiscoveryNote | esp-idf/src/rnsd_gateway.cpp:217-230 | A discovered gateway is marked; recomputed exactly when the mark is new, and an announce is owed exactly when the distance moved after the first publication |
| Gateway.GatewayTable.Heard | esp-idf/src/rnsd_gateway.cpp:232-257 | A direct announce refreshes only rows that nothing else keeps, and adds one only for an operator's word; an announce is owed exactly when the distance moved after the first publication |
| Gateway.GatewayTable.SetUplink | esp-idf/src/rnsd_gateway.cpp:259-267 | An uplink change recomputes, and owes an announce exactly when the distance moved after the first publication; no change is no effect once published |
| Gateway.GatewayTable.AnnounceOwed | esp-idf/src/rnsd_gateway.cpp:274-280 | The owed announce is reported once |
| Gateway.NoneExactlyWhen | esp-idf/src/rnsd_gateway.cpp:97-143 | When no neighbour declares a finite distance, the own distance is "none" if and only if no row is vouched for by the operator or by discovery |
| Gateway.DiscoveryOutlivesGateway | esp-idf/src/rnsd_gateway.cpp:217-228 | A discovery mark is kept alive by later declarations alone: such a row gives distance 1 whatever it declares |
| GatewayNet.StepHonest | esp-idf/src/rnsd_gateway.cpp:189-215 | No announce, loss, expiry, eviction or recomputation makes a table or a distance claim more than is true |
| GatewayNet.NeverTooClose | esp-idf/src/rnsd_gateway.cpp:123-165 | Over every run from fresh tables no node's distance is smaller than its true hop count capped at 8 |
| GatewayNet.RoundRaises | esp-idf/src/rnsd_gateway.cpp:123-215 | After the gateways vanish, every full round of recomputing and re-declaring raises the smallest finite distance in all tables |
| GatewayNet.AllReachNone | esp-idf/src/rnsd_gateway.cpp:123-215 | Once nothing makes a gateway any more, eight full rounds, in any interleaving and from any stale tables in which no row is vouched for, leave every node at "none"; rows that say "none" or that the operator refuses need not be declared afresh |
| GatewayNet.VouchedStaysNear | esp-idf/src/rnsd_gateway.cpp:123-165 | The converse: a node that has computed and still keeps a row with a mark that the operator has not overruled stands at 1, after any run, gateways or none |
| GatewayNet.NoneExactlyUnvouched | esp-idf/src/rnsd_gateway.cpp:97-143 | Eight full rounds in which no vouched row is lost end with every node at "none" if and only if there is no vouched row; and in any eight rounds, every node at "none" at the end means that none is left |
| GatewayStale.StaysAtOne | esp-idf/src/rnsd_gateway.cpp:217-228 | That the condition is needed, on a network: two nodes with fresh tables, one discovery announce while an interface is wired, and then any number of full rounds without it or any other way out leave a node at distance 1 |
| GatewaySettle.RoundLowers | esp-idf/src/rnsd_gateway.cpp:123-215 | The other direction: in every full round in which no node loses the row of a neighbour it hears and every row is declared afresh or expires, ways out of one hop more become known to every node, row and message |
| GatewaySettle.SettlesAtTruth | esp-idf/src/rnsd_gateway.cpp:123-215 | So eight such rounds, in any interleaving, from any complete tables that claim no more than is true, leave every node at exactly its true hop count capped at 8: at most d if and only if there is a way out within d hops, for every d below 8 |
| GatewayRows.ExpiryOnly | esp-idf/src/rnsd_gateway.cpp:123-143 | Only a computation makes rows expire, and just those not heard within the horizon |
| GatewayRows.StepKeepsRows | esp-idf/src/rnsd_gateway.cpp:105-215 | A node that hears at most 48 neighbours loses a row by expiry alone: in every step in which none expires, it keeps a row, mark included, of every neighbour it had one of |
| GatewayRows.FillsUp | esp-idf/src/rnsd_gateway.cpp:189-230 | On such a network, once every neighbour has been heard, every table is complete |
| GatewayRows.StaysComplete | esp-idf/src/rnsd_gateway.cpp:105-215 | And it stays complete along every run in which no row expires |
| GatewayRows.SettlesFromFresh | esp-idf/src/rnsd_gateway.cpp:105-215 | From fresh tables, with nodes that hear at most 48 neighbours: after any run in which every neighbour is heard, and then eight full rounds in any interleaving in which no row expires, every node is at exactly its true hop count capped at 8 |
| LinkTable.Find | esp-idf/src/rnsd.cpp:5783-5804 | A scan gives the first slot that matches, or says that none does |
| LinkTable.Victim | esp-idf/src/rnsd.cpp:5853-5861 | The slot evicted is a used one idle longest |
| LinkTable.Alloc | esp-idf/src/rnsd.cpp:5843-5868 | A free slot is always found, by eviction if need be |
| LinkTable.ApplyKeeps | esp-idf/src/rnsd.cpp:7105-7431 | Every event keeps each slot sound, no two used slots from one open, and answers nothing twice; an asking adds exactly one to be answered |
| LinkTable.ExactlyOnce | esp-idf/src/rnsd.cpp:6595-6681 | Over every run: each request with somewhere to answer to is held by the table or was answered, never both and never twice; no open dials more than three times |
| LinkAnswers.RespondedExactly | esp-idf/src/rnsd.cpp:6595-6628 | Over every run, responses and failures counted apart: a token has had exactly as many responses as have come in, with memory for them, for a request in flight with it; all other answers were failures, and answers, failures and responses add up |
| LinkAnswers.ApplyResponds | esp-idf/src/rnsd.cpp:6595-6616 | Each event puts out a response for a token exactly if it is a response coming in, with memory for it, for the request in flight with that token |
| LinkFates.FreedOnly | esp-idf/src/rnsd.cpp:5843-5868 | A slot is freed for no other reason than these: its consumer leaves, or has left and its tag is opened again; the table is full and it has been idle longest; it is dead and the grace is over |
| LinkFates.ConnectGoes | esp-idf/src/rnsd.cpp:7105-7216 | An open that is refused changes nothing; any other is given a slot, a free one, or one whose consumer is gone and which has its tag, or with the table full the one idle longest, and what it dials goes out last |
| LinkFates.OpenGoes | esp-idf/src/rnsd.cpp:7165-7216 | A new open dials at once over a path, else waits for one as long as the budget says; if no link can be built it has failed |
| LinkFates.AcceptGoes | esp-idf/src/rnsd.cpp:7446-7561 | An incoming link is given a slot in the same way and is active at once; without a listener it has failed, and is dated |
| LinkFates.AskedGoes | esp-idf/src/rnsd.cpp:7385-7431 | Where a request goes: in flight on an active link that takes it, deferred while the link is not up, and failed at once in just the other cases |
| LinkFates.InFlightKept | esp-idf/src/rnsd.cpp:6595-6628 | Over every run, a request in flight stays in flight, unanswered, with its deadline, until a callback for it, a tick past its deadline, or its slot is freed |
| LinkFates.ResponseArrives | esp-idf/src/rnsd.cpp:6595-6616 | So a response that arrives before that, with memory for it, is what the requester gets |
| LinkFates.EstablishedGoes | esp-idf/src/rnsd.cpp:6116-6218 | When its link comes up a slot is active, and its deferred request is in flight if it can be issued |
| LinkFates.ClosedGoes | esp-idf/src/rnsd.cpp:6220-6257 | A close during establishment leaves the decision to the next tick; an active link is closed and dated; neither answers anything |
| LinkFates.TickDecides | esp-idf/src/rnsd.cpp:7033-7090 | A tick dials exactly when a slot that waits for a path has one, or an establishment has timed out and a live peer is to be tried again over a path; it waits for a path again exactly when that is missing; it gives up exactly when the path budget is spent, when after a time-out the peer is not alive or has been tried three times, or when no link can be built |
| LinkFates.StateKept | esp-idf/src/rnsd.cpp:6957-7103 | Over every run, a slot keeps its state, link, attempts and deadline for as long as nothing frees it and nothing it waits for is due: no path wait or establishment is given up early |
| LinkFates.ThreeTries | esp-idf/src/rnsd.cpp:7060-7090 | As long as there are paths, live peers and links to be built, every open that has failed has dialled exactly three times |
| LinkSlots.TickMoves | esp-idf/src/rnsd.cpp:6958-7103 | A tick turns held requests only into answers and dials at most once, counted in attempts |
| LinkSlots.RequestMoves | esp-idf/src/rnsd.cpp:7385-7431 | A request is held, sent or failed at once, in every state of the slot |
| LinkSlots.EstablishMoves | esp-idf/src/rnsd.cpp:6116-6218 | The deferred request is sent or failed when the link comes up |
| LinkSlots.FreeMoves | esp-idf/src/rnsd.cpp:6788-6863 | Freeing a slot fails exactly the requests it held |
| LinkSlots.SettleMoves | esp-idf/src/rnsd.cpp:6595-6632 | A response or failure callback answers the request in flight, once |
| LinkTiming.TickInTime | esp-idf/src/rnsd.cpp:7024-7098 | Acting on a deadline at the next tick leaves what may still follow within the open's time |
| LinkTiming.CloseInTime | esp-idf/src/rnsd.cpp:6220-6257 | A close during establishment moves its deadline by less than a tick gap, once |
| LinkRuns.SlotsReleased | esp-idf/src/rnsd.cpp:6938-7103 | Over every run with ticks at most a gap apart, a slot waiting, establishing or failed was opened at most three attempts and a release ago; a closed one is gone after the grace and a gap |
| LinkRuns.HeldIsOld | esp-idf/src/rnsd.cpp:6788-6863 | What is held with a token was asked for no later than the last asking |
| LinkRuns.Settled | esp-idf/src/rnsd.cpp:6595-6681 | Once the answer time has passed since the last asking with a token, every asking with it has been answered exactly once |
| LinkConns.Conns.Accounted | esp-idf/src/rnsd.cpp:6595-6681 | Of the slot array after any calls of its handlers: each request asked for is held in a slot or has been answered, once |
| LinkConns.Conns.DialsBounded | esp-idf/src/rnsd.cpp:6938-6955 | No open has dialled more than three times, and a used slot just as often as its attempts say |
| LinkConns.Conns.Released | esp-idf/src/rnsd.cpp:6938-7103 | If the handlers were called in time, a slot that is not active is released within three attempts and a release, a closed one within its grace |
| LinkConns.Conns.AllAnswered | esp-idf/src/rnsd.cpp:6595-6681 | And a token last asked with long enough ago has had exactly one answer for each asking |
| LinkConns.Conns.Responded | esp-idf/src/rnsd.cpp:6595-6628 | Of the slot array after any calls of its handlers: the responses sent for a token are just the responses that came in for it, with memory for them, while it was in flight; all its other answers are failures |
| LinkConns.Conns.Scan | esp-idf/src/rnsd.cpp:5783-5804 | The scanning loops find what LinkTable.Find says |
| LinkConns.Conns.LongestIdle | esp-idf/src/rnsd.cpp:5853-5861 | The eviction loop finds LinkTable.Victim |
| LinkConns.Conns.Allocate | esp-idf/src/rnsd.cpp:5843-5868 | linkAlloc does what LinkTable.Alloc says, teardown callback included |
| LinkConns.Conns.OnEstablished | esp-idf/src/rnsd.cpp:6116-6218 | The handler, with its own lookup in the array, keeps the array equal to the run of the machine over all events handled, this one appended; an established link |
| LinkConns.Conns.OnClosed | esp-idf/src/rnsd.cpp:6220-6257 | The handler, with its own lookup in the array, keeps the array equal to the run of the machine over all events handled, this one appended; a closed link |
| LinkConns.Conns.OnResponse | esp-idf/src/rnsd.cpp:6595-6616 | The handler, with its own lookup in the array, keeps the array equal to the run of the machine over all events handled, this one appended. If no request is in flight under that id nothing changes; otherwise the slot that holds it no longer does, and its requester gets a response if there is memory for it and a failure if not, and nothing else goes out |
| LinkConns.Conns.OnRequestFailed | esp-idf/src/rnsd.cpp:6618-6628 | The handler, with its own lookup in the array, keeps the array equal to the run of the machine over all events handled, this one appended. The request in flight under that id, if there is one, is given up, and its requester gets a failure and nothing else goes out |
| LinkConns.Conns.OnTick | esp-idf/src/rnsd.cpp:6958-7103 | The handler, with its own lookup in the array, keeps the array equal to the run of the machine over all events handled, this one appended; a tick, slot by slot |
| LinkConns.Conns.OnConnect | esp-idf/src/rnsd.cpp:7105-7216 | The handler, with its own lookup in the array, keeps the array equal to the run of the machine over all events handled, this one appended; an open, refused exactly for an empty tag or one a live consumer holds |
| LinkConns.Conns.OnIncoming | esp-idf/src/rnsd.cpp:7446-7561 | The handler, with its own lookup in the array, keeps the array equal to the run of the machine over all events handled, this one appended; an incoming link |
| LinkConns.Conns.OnDisconnect | esp-idf/src/rnsd.cpp:7269-7286 | The handler, with its own lookup in the array, keeps the array equal to the run of the machine over all events handled, this one appended; a consumer gone |
| LinkConns.Conns.OnRequest | esp-idf/src/rnsd.cpp:7385-7431 | The handler, with its own lookup in the array, keeps the array equal to the run of the machine over all events handled, this one appended; a request frame, too short, cut off or whole |

## Left out

- MainSort.MainSort: a block without a repetition of twenty bytes never draws on the budget; how much a repetitive one draws is not stated. The loops that the source unrolls by four are written once, a flag is added to a table entry where the source ORs a bit that is not set, and quadrant is an array of its own whose entries are shown to fit 16 bits where they are written (UpdateQuadrants).
- Randomised blocks: the loops of the two forms for them, and the SMALL loop for the others, are one (UnRleSmall) over a fetch that flips or does not (NextByte).
- The stdio half of bzlib.c but for the FINISH loop of BZ2_bzWriteClose, allocation and memory errors, NULL and ownership checks, verbosity, version strings.
- 64-bit totals in total_in and total_out: not modelled.
- Crc.TableEntry: the checksum table is computed from the polynomial; of the 256 literals of crctable.c the ones at 0 and the powers of two are compared with it (CrcDetects.TablePowers), the others are exclusive ors of these (TableLinear).
- Header bits are an array of bool of whole words; the packing of 32 of them in a word is not modelled, the skips by words are.
- HuffmanLengths.MakeCodeLengths: heap, weight and parent are sequences passed between methods instead of local arrays.
- Storage that the encoder overlays (arr1 as ptr and mtfv, arr2 as block, quadrant and zbits) is modelled as one array where reading and overwriting meet (GenerateMTFValues, eclass and eclass8) and as separate arrays elsewhere; that the compressed block fits behind the block is proved as a size (CompressBlock). eclass and the eclass8 that overlays it are two arrays written together (SetClass).
- Sender and TableChoice: code lengths, frequencies and selectors are sequences that the methods return; costs are summed one table at a time, not in packed pairs (Cost shows that sixteen bits suffice); the unrolled fast tracks for six tables are the general loops.
- Decoder.Decoder: decode tables are stored as the sequences the arrays end up with; the local copies of the FAST output loop are the fields themselves; gotos are rewritten as branches. After an error the object is only said to be in its error phase; the fields are not.
- GatewayNet: every step may read any time and any horizon, and recomputation is a step of its own that may come at any moment, so the runs include those of the program and more; logging, storage, publication to the browser and the mutex are not modelled. A vouched row that disappears during the eight rounds leaves both outcomes open, see NoneExactlyUnvouched.
- HeaderReader.Field: the fields of the headers and tables are one value that the object hands over and takes back, their arrays sequences of the same sizes; the verbosity output and the block number are left out.
- Completion.StoppedShort: of the stream that goes on from what was given out, the order of equal rotations, the code tables and the selectors are not those the compressor would have chosen.
- BufferToBuffer.Compress: the stream is stated up to the order of equal rotations, the code tables and the selectors, so that with room below the bound it is not stated of every input whether it fits.
- ResourceCodec.Compress: the same of an input whose StreamBound is not below its length.
- GatewayRows.SettlesFromFresh: with more than 48 neighbours to hear, rows are evicted, and with rows that expire between two declarations, they come and go; what the distance then settles at is not stated beyond NeverTooClose.
- HuffmanLengths.MakeCodeLengths: the least total is for the weights of the last tree, halved or not; that no lengths within the limit of 17 bits are better for the weights as they were before halving is not claimed.
- Gateway.OldestIsLeast: the wrap-around comparison of hearing times is modelled, and picks the least time only while times stay below half the range.
- LinkSlots: token, asked and opening are not in the program; they tell requests and opens apart. An answer counts as given when it is handed to the message queue; a full queue loses it.
- LinkSlots.KickoffSlot: an exception thrown after the link object exists (while setting callbacks) is modelled as one thrown by its construction. `has_path` and `recall` do not change within one step, and `recall` succeeds where a path is dialled.
- LinkSlots: packets, resources, identify and delivery proofs share the slot but neither its state nor its requests, and are not modelled, nor are storage keys, logging and path requests; link ids and request ids are numbers.
- ResourceCodec: sizes beyond 32 bits, which the application casts, and running out of memory are not modelled.
- LinkRuns.Settled: holds for ticks at most a gap apart and for budgets and timeouts within bounds; the table's task being held up longer is outside of it.
