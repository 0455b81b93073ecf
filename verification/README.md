# Verification of the audio pipeline runtime and the MP3 decoder

This project models the parts of the audio library whose simple meaning is hidden behind an optimised,
stateful implementation, and proves that the implementation keeps the meaning. It has five parts.

* **MP3 front end** (`Bits`, `HuffmanSpec`, `HuffmanTheory`, `HuffmanTable7`, `HuffmanCodes7`,
  `HuffmanCache`, `Huffman`, `HuffmanQuads`, `HuffmanBlock`, `BitStream`, `SideInfo`, `ScaleFactors`, `Mp3Tables`, `Mp3Frame`, `Mp3Decode`). The
  meaning is "read the next n bits" and "walk a prefix-code tree bit by bit". The Huffman decoder is first
  given as a schedule over stream positions (`HuffmanSpec.Schedule`: refills, padding, lookups). The schedule
  is compared with the walk, and with the walk over the bits followed by zeros (`HuffmanTheory`), and the loops over the 32-bit cache are proved against the
  schedule (`Huffman`, `HuffmanQuads`). `Mp3Decode` puts the stages together with the bit reservoir. Words
  are sequences of 32 bits; `Bits` ties their operations to arithmetic modulo 2^32. Code tables are any
  tables that satisfy `WFTable`, `WFQuads`, and for pair table 7 the codewords of the standard are read back (`HuffmanCodes7`); band tables are those of the decoder or any increasing ones.
* **Ring buffer** (`RingBuffer`, `RingMachine`). A class over an array that refines a byte queue for one
  caller, and a step machine for one reader, one writer and any number of control calls, in which locked
  sections, the reading of single flags and semaphore operations interleave freely. Timeouts and failures
  to lock can happen at any time. The sizes of the locked sections and the way they move the pointers are
  the same functions in both.
* **MP3 back end** (`SubbandFifo`, `Imdct`, `DqChan`). The numeric transforms are parameters; the buffer
  handling around them is proved: the double-written FIFO, sparse overlap-add, truncated alias reduction,
  in-place reordering with early exit.
* **Log level cache** (`LogCache`). The 31-slot heap of tag pointers against the plain list.
* **Elements and pipelines** (`Element`, `Pipeline`). Command handlers, results of open and process, and
  API calls as steps over the element's fields; linking and unlinking as changes to shared objects.

The MP3 formats are those of ISO/IEC 11172-3 (sections 2.4.1.7, 2.4.2.7, 2.4.3.4) and ISO/IEC 13818-3
(section 2.4.3.2).

## Where the code and its promise differ

* `DecodeHuffmanPairs` is documented to return -1 when the bits run out. With a jump table it can succeed on
  bits that hold no codeword: table 7 makes the pair (5, 5) of the single bit 0
  (`HuffmanTable7.JumpIntoPaddingSucceeds`). It succeeds if and only if the bits followed by zeros hold the
  pairs, where codewords, escapes and signs have to end by the last bit, but every jump past the end moves it
  on by 11 bits, and the decoder does not run dry (`HuffmanTheory.DecodesExactly`, `ScheduleIsPadded`). It runs
  dry when a refill finds the cache unpadded at the last bit; the bits are short then (`DryIsShort`), and
  without escapes it cannot unless the bits behind the first partial byte are whole pairs of bytes
  (`DryNeedsWholeWords`).
* Low-rate scale factors of a start or stop block with the mixed flag are read with moved widths
  (`ScaleFactors.TableBitsIsPart2Length` gives the exact condition, `MisreadBlock` such a block).
* A read with a null buffer is documented to drop the bytes. The code moves the null pointer on with each
  locked section and takes it for a buffer in the second one. For one caller that happens exactly if the read
  asks for more than is held at the end of the stream, and this is a word or more but not a number of words
  (`RingBuffer.TwoSectionsExactly`, `rb_read`; `PseudoReadGoesWild` is such a read).
* A read that has taken bytes and is then aborted returns RB_ABORT, so that the caller is not told how many bytes have
  left the buffer (`RingBuffer.AbortHidesBytes`).
* `rb_done_write` does not wake a waiting writer (`RingMachine.WriterForgotten`, `DoneForgetsWriter`).
* RB_DONE can be returned over bytes that are still held. They are then fewer than a word and than the call
  asks for, and the call started before the end was announced (`RingMachine.LateDoneLeavesFew`); and from
  every state with so few bytes and a free reader and lock there is such a run (`DoneLeavesBytes`). A call
  that starts after the announcement is exact (`EarlyReadsDrain`).
* A ring of one to three bytes can spin for ever (`RingMachine.SmallBufferReached`, `SmallBufferSpins`); one
  of four or more cannot (`NoLivelock`).
* The log cache is wrong after a set if and only if a second pointer with the same text is cached with
  another level (`LogCache.SetKeepsFresh`); a lookup of that pointer then returns the old level
  (`StaleLevel`).
* `audio_element_reset_state` on an open element leads to a second open exactly if process then returns 0 or
  AEL_IO_DONE (`Element.process_running`, `audio_element_reset_state`; `SecondOpen` is such a run).
* Linking a single element passes on a destroyed buffer (`Pipeline.SingleDangles`). A link that fails at an
  unknown tag leaves its buffers in a pipeline that is marked unlinked, so that unlink does not free them
  (`audio_pipeline_link`, `audio_pipeline_unlink`).
* `HybridTransform` is documented to return the number of non-zero blocks. When overlap decides, it returns
  the index of the last one. Block number nBlocksOut is non-zero if and only if there is a block without
  samples whose windowed overlap is not zero (`Imdct.HybridTransform`, `ReturnedBlock`); `IndexNotCount`
  says which inputs make the result 1 over two non-zero blocks, whatever the transforms are. Only its new overlap is relied on later, and that is empty.
* `audio_element_stop` handles a paused element that is running; by the invariant there is none.

## Model

| member | source | states |
|---|---|---|
| Bits.ShlIsMultiply | libaudio/components/eswin-adf-libs/eswin_codec/lib/codec/soft_decoder/mp3/src/huffman.c:151 | A left shift of the 32-bit cache, modelled on its bits, is multiplication by a power of two modulo 2^32 |
| Bits.TopIsShiftRight | libaudio/components/eswin-adf-libs/eswin_codec/lib/codec/soft_decoder/mp3/src/huffman.c:148 | Indexing with the top bits of the cache is an unsigned right shift |
| Bits.OrIsAdd | libaudio/components/eswin-adf-libs/eswin_codec/lib/codec/soft_decoder/mp3/src/huffman.c:129-130 | Or-ing a byte behind the cached bits adds its value |
| Bits.ByteBitsValue | libaudio/components/eswin-adf-libs/eswin_codec/lib/codec/soft_decoder/mp3/src/huffman.c:110 | The eight bits of a byte, most significant first, spell its value |
| HuffmanTheory.WalkIsLookup | libaudio/components/eswin-adf-libs/eswin_codec/lib/codec/soft_decoder/mp3/src/huffman.c:193-203 | One lookup of maxBits bits in a well-formed node is the walk down the code tree bit by bit: it ends in the same leaf after the same number of bits, or at the node the jump leads to |
| HuffmanTheory.ScheduleIsPadded | libaudio/components/eswin-adf-libs/eswin_codec/lib/codec/soft_decoder/mp3/src/huffman.c:167-260 | From any well-formed node and any cache state, padded or not: unless it runs dry, the cached decoder succeeds if and only if the stream followed by zeros holds the pairs, complete at an end that each jump past it moves on by 11 bits; values and used bits are then those |
| HuffmanTheory.ReadIsPadded | libaudio/components/eswin-adf-libs/eswin_codec/lib/codec/soft_decoder/mp3/src/huffman.c:167-260 | Pairs that the bit-by-bit walk reads are read with zeros behind the bits as well, with the same end |
| HuffmanTheory.DryIsShort | libaudio/components/eswin-adf-libs/eswin_codec/lib/codec/soft_decoder/mp3/src/huffman.c:180 | A decoder that runs dry stands before bits that do not hold the pairs |
| HuffmanTheory.DryNeedsWholeWords | libaudio/components/eswin-adf-libs/eswin_codec/lib/codec/soft_decoder/mp3/src/huffman.c:170-189 | With a table without escapes a decoder runs dry only if the bits behind the first partial byte are whole pairs of bytes, because then nothing was padded |
| HuffmanTheory.OneShotNeverPads | libaudio/components/eswin-adf-libs/eswin_codec/lib/codec/soft_decoder/mp3/src/huffman.c:120-166 | A one-shot table has no jumps, so the end never moves, and with zeros behind the bits the values and the position are those of the walk |
| HuffmanTheory.DecodesExactly | libaudio/components/eswin-adf-libs/eswin_codec/lib/codec/soft_decoder/mp3/src/huffman.c:82-264 | For every well-formed one-shot, jump or escape table, every bit string and every starting offset: success, values and used bits are those of the bits followed by zeros, unless the decoder runs dry; they are those of the walk whenever the codewords are complete; and a one-shot table gives up exactly when they are not |
| HuffmanTable7.JumpIntoPaddingSucceeds | libaudio/components/eswin-adf-libs/eswin_codec/lib/codec/soft_decoder/mp3/src/huffman.c:179-201 | The promise to return -1 when the bits run out is false: with table 7 the single bit 0, which holds no codeword, gives the pair (5, 5) and one used bit |
| HuffmanTable7.Table7WellFormed | libaudio/components/eswin-adf-libs/eswin_codec/lib/codec/soft_decoder/mp3/src/hufftabs.c:158-172 | Table 7 of the decoder is a well-formed jump table: in each of its eight nodes every entry is a jump to a node or a leaf that fills the block of its codeword |
| HuffmanCodes7.CodewordFound | libaudio/components/eswin-adf-libs/eswin_codec/lib/codec/soft_decoder/mp3/src/hufftabs.c:158-172 | The bits of the codeword that the standard gives the pair (x, y) lead through the nodes of table 7 to the leaf of that pair |
| HuffmanCodes7.PairsRead | libaudio/components/eswin-adf-libs/eswin_codec/lib/codec/soft_decoder/mp3/src/hufftabs.c:158-172 | Any list of pairs, each written as its codeword and sign bits, is read back from table 7, x before y, with the same end |
| HuffmanCodes7.DecodesWhatIsCoded | libaudio/components/eswin-adf-libs/eswin_codec/lib/codec/soft_decoder/mp3/src/huffman.c:82-264 | For pair table 7 the decoder writes x of every pair of such a list at the even place and y at the odd one, each negative exactly where its sign bit is set, and uses exactly the bits of the list, whatever follows them |
| Huffman.RefillCache | libaudio/components/eswin-adf-libs/eswin_codec/lib/codec/soft_decoder/mp3/src/huffman.c:170-189 | The refill loads two bytes, or the one or two that are left and then padding; the cache then stands for the same stream position |
| Huffman.FillForEscape | libaudio/components/eswin-adf-libs/eswin_codec/lib/codec/soft_decoder/mp3/src/huffman.c:208-221 | Bytes are loaded until the escape and its sign bits are cached, or there are too few; the overshoot beyond the last bit is cut off |
| Huffman.LookUp | libaudio/components/eswin-adf-libs/eswin_codec/lib/codec/soft_decoder/mp3/src/huffman.c:192-246 | One lookup with the cache: a jump, or a leaf with its escapes and sign bits, as the schedule prescribes |
| Huffman.DecodeCoded | libaudio/components/eswin-adf-libs/eswin_codec/lib/codec/soft_decoder/mp3/src/huffman.c:120-260 | The decoding loops write the scheduled values and return the scheduled number of bits, and nothing else is written |
| Huffman.DecodeHuffmanPairs | libaudio/components/eswin-adf-libs/eswin_codec/lib/codec/soft_decoder/mp3/src/huffman.c:82-264 | For every table, buffer, bit offset and number of bits: the values written and the bits used are those of the walk over the bits of the buffer when it reads them, and -1 when it cannot and the table has no jumps; for every table they are those of the bits followed by zeros, and the result is negative when these do not hold the pairs or the decoder runs dry; nothing outside the region is written |
| HuffmanTheory.RegionByWalk | libaudio/components/eswin-adf-libs/eswin_codec/lib/codec/soft_decoder/mp3/src/huffman.c:82-264 | A region as the table-driven decoder takes it is that of the walk whenever the bits hold the codewords, and for a table without jumps always, at every bit offset |
| HuffmanTheory.RegionFits | libaudio/components/eswin-adf-libs/eswin_codec/lib/codec/soft_decoder/mp3/src/huffman.c:432-436 | A decoded region ends inside the bits, so that the test for an overrun only ever meets negative results |
| HuffmanQuads.QuadByLookup | libaudio/components/eswin-adf-libs/eswin_codec/lib/codec/soft_decoder/mp3/src/huffman.c:329-337 | A quad looked up in a prefix-code table is the quad that reading the code bit by bit gives |
| HuffmanQuads.FlagsAreBits | libaudio/components/eswin-adf-libs/eswin_codec/lib/codec/soft_decoder/mp3/src/huffman.c:334-337 | The four magnitudes are the low four bits of the entry |
| HuffmanQuads.DecodeHuffmanQuads | libaudio/components/eswin-adf-libs/eswin_codec/lib/codec/soft_decoder/mp3/src/huffman.c:285-353 | The quads written are the longest run of whole codewords with their signs that fits both the bits and the space left; its length is returned and nothing else is written |
| HuffmanBlock.RegionEndsOrdered | libaudio/components/eswin-adf-libs/eswin_codec/lib/codec/soft_decoder/mp3/src/huffman.c:402-425 | The region ends are even, ordered and at most 576, for every block type and every increasing table of even bands |
| HuffmanBlock.RegionsAreBands | libaudio/components/eswin-adf-libs/eswin_codec/lib/codec/soft_decoder/mp3/src/huffman.c:402-419 | With the region counts that the side information gives or implies, the first region is as wide as the first region0Count + 1 bands in the order in which they are coded, for long, short and mixed blocks of every version; so is the end of the second region with both counts, and in a short block with all bands |
| HuffmanBlock.BitsMove | libaudio/components/eswin-adf-libs/eswin_codec/lib/codec/soft_decoder/mp3/src/huffman.c:438-439 | Moving byte pointer and bit offset on by the used bits drops exactly those bits |
| HuffmanBlock.DecodeBigValues | libaudio/components/eswin-adf-libs/eswin_codec/lib/codec/soft_decoder/mp3/src/huffman.c:430-441 | The three regions follow each other without gap in the bits and in the spectrum, and the call goes on exactly when none of them is cut off |
| HuffmanBlock.RegionsByWalk | libaudio/components/eswin-adf-libs/eswin_codec/lib/codec/soft_decoder/mp3/src/huffman.c:430-441 | The same for the three regions one after the other, each starting at the bit offset the one before leaves: those of the walk whenever it reads them all, and always when no table in use has jumps |
| HuffmanBlock.DecodeHuffman | libaudio/components/eswin-adf-libs/eswin_codec/lib/codec/soft_decoder/mp3/src/huffman.c:377-457 | On success big values, quads and zeros fill all 576 places, the non-zero bound is at most 576 and everything from it on is zero, and the cursor has moved by exactly huffBlockBits, stuffing included; -1 exactly for a negative length or a region that is cut off |
| HuffmanBlock.FillsByWalk | libaudio/components/eswin-adf-libs/eswin_codec/lib/codec/soft_decoder/mp3/src/huffman.c:377-457 | A spectrum filled by the decoder is the one that walking the codes bit by bit gives, whenever the walk reads all regions; when it cannot and no table in use has jumps, the call has failed |
| BitStream.BitStreamInfo.SetBitstreamPointer | libaudio/components/eswin-adf-libs/eswin_codec/lib/codec/soft_decoder/mp3/src/bitstream.c:60-67 | The reader stands at the first of nBytes bytes |
| BitStream.BitStreamInfo.RefillBitstreamCache | libaudio/components/eswin-adf-libs/eswin_codec/lib/codec/soft_decoder/mp3/src/bitstream.c:87-109 | The cache holds the next four bytes big-endian, or the last one to three left-justified |
| BitStream.BitStreamInfo.GetBits | libaudio/components/eswin-adf-libs/eswin_codec/lib/codec/soft_decoder/mp3/src/bitstream.c:129-150 | Any request of 0 to 31 bits returns the big-endian number of the next bits of the stream across any refill, with zeros behind its end, and advances the position by the request |
| BitStream.BitStreamInfo.CalcBitsUsed | libaudio/components/eswin-adf-libs/eswin_codec/lib/codec/soft_decoder/mp3/src/bitstream.c:165-174 | The number of bits requested so far, less the start offset |
| BitStream.TakesAcross | libaudio/components/eswin-adf-libs/eswin_codec/lib/codec/soft_decoder/mp3/src/bitstream.c:136-146 | Joining the rest of the old cache with the start of the refilled one spells the requested bits |
| SideInfo.LayoutFillsBytes | libaudio/components/eswin-adf-libs/eswin_codec/lib/codec/soft_decoder/mp3/src/bitstream.c:315-385 | The fields of the side information fill its 17, 32, 9 or 17 bytes to the last bit |
| SideInfo.SubAtInRange | libaudio/components/eswin-adf-libs/eswin_codec/lib/codec/soft_decoder/mp3/src/bitstream.c:337-380 | Every field is in the range that later stages index with, and with window switching the region counts add up to 20 |
| SideInfo.SubRoundTrip | libaudio/components/eswin-adf-libs/eswin_codec/lib/codec/soft_decoder/mp3/src/bitstream.c:337-380 | What an encoder writes for a granule and channel, with or without window switching, takes 59 or 63 bits, and the decoder reads every field of it back, wherever it stands |
| SideInfo.UnpackSideInfo | libaudio/components/eswin-adf-libs/eswin_codec/lib/codec/soft_decoder/mp3/src/bitstream.c:299-388 | Every field is the number at its place in the layout, whichever window-switching branches are taken; fields the frame does not carry keep their contents, those of a second channel included; all bytes are used, which is the closing assert |
| Mp3Frame.ParseHeader | libaudio/components/eswin-adf-libs/eswin_codec/lib/codec/soft_decoder/mp3/src/bitstream.c:218-247 | A header is accepted only with a sync word, layer, sample rate and bit rate index that index the tables |
| Mp3Frame.HeaderLayout | libaudio/components/eswin-adf-libs/eswin_codec/lib/codec/soft_decoder/mp3/src/bitstream.c:224-251 | The header is refused exactly for a missing sync word or a reserved layer, bit rate or sample rate; otherwise version, layer, CRC flag, indices, padding, mode and extension are the numbers at bits 11, 13, 15, 16, 20, 22, 24 and 26 of the header |
| Mp3Frame.NSlots | libaudio/components/eswin-adf-libs/eswin_codec/lib/codec/soft_decoder/mp3/src/bitstream.c:266-273 | With a bit rate from the table there are 1 to 1429 bytes of main data |
| Mp3Frame.FrameIsFilled | libaudio/components/eswin-adf-libs/eswin_codec/lib/codec/soft_decoder/mp3/src/bitstream.c:249-273 | Header, CRC, side information and main data fill the frame, with its padding, to the last byte |
| Mp3Frame.FrameBytesAre | libaudio/components/eswin-adf-libs/eswin_codec/lib/codec/soft_decoder/mp3/src/mp3tabs.c:96-125 | The table of frame lengths: as many whole bytes as 1152 samples, or 576 in the later versions, take at bit rate and sample rate |
| Mp3Frame.FrameFits | libaudio/components/eswin-adf-libs/eswin_codec/lib/codec/soft_decoder/mp3/src/mp3tabs.c:96-125 | The longest reservoir and any slot together fit the 1940 bytes of the main data buffer |
| Mp3Frame.MP3FindSyncWord | libaudio/components/eswin-adf-libs/eswin_codec/lib/codec/soft_decoder/mp3/src/mp3dec.c:103-114 | The first sync word in the range, or -1 if there is none |
| ScaleFactors.UnpackSFMPEG1 | libaudio/components/eswin-adf-libs/eswin_codec/lib/codec/soft_decoder/mp3/src/scalfact.c:81-144 | Every scale factor is the field at its place or the one of granule 0, and exactly the part2 length is read |
| ScaleFactors.SlenRows | libaudio/components/eswin-adf-libs/eswin_codec/lib/codec/soft_decoder/mp3/src/scalfact.c:47-56 | The table of field widths is that of the standard, slen1 and slen2 by scalefac_compress |
| ScaleFactors.TablesAgree | libaudio/components/eswin-adf-libs/eswin_codec/lib/codec/soft_decoder/mp3/src/scalfact.c:156-183 | The partition tables in units of bands give the partition sizes of the standard |
| ScaleFactors.BandCounts | libaudio/components/eswin-adf-libs/eswin_codec/lib/codec/soft_decoder/mp3/src/scalfact.c:299-337 | The partitions count 21 long or 12 short bands, so the running band index stays in the arrays |
| ScaleFactors.WidthsDecoded | libaudio/components/eswin-adf-libs/eswin_codec/lib/codec/soft_decoder/mp3/src/scalfact.c:219-278 | For each of the six classes the widths that the standard codes in sfCompress are decoded, with the intensity scale of the right channel; a mixed flag takes the first width of the third class twice |
| ScaleFactors.UnpackSFMPEG2 | libaudio/components/eswin-adf-libs/eswin_codec/lib/codec/soft_decoder/mp3/src/scalfact.c:208-338 | Every scale factor is the field at its place in its partition, and the number of bits of the decoder's tables is read; preFlag and the data for intensity stereo are those of the partition |
| ScaleFactors.TableBitsIsPart2Length | libaudio/components/eswin-adf-libs/eswin_codec/lib/codec/soft_decoder/mp3/src/scalfact.c:238-249 | The bits read are the part2 length of ISO/IEC 13818-3 if and only if the block is not a start or stop block with the mixed flag in the third class whose first two widths differ: the code moves the widths although the block is not short |
| ScaleFactors.MisreadBlock | libaudio/components/eswin-adf-libs/eswin_codec/lib/codec/soft_decoder/mp3/src/scalfact.c:238-249 | A start block with the mixed flag and class 501 takes ten bits by the standard, and the code reads none |
| ScaleFactors.UnpackScaleFactors | libaudio/components/eswin-adf-libs/eswin_codec/lib/codec/soft_decoder/mp3/src/scalfact.c:356-391 | Pointer and bit offset move by exactly the number of bits read, which for MPEG-1 is the part2 length and for MPEG-2 TableBits, the standard's length only under !MisreadsWidths; the factors are those at the cursor, with preFlag and the data for intensity stereo |
| Mp3Decode.MainSlice | libaudio/components/eswin-adf-libs/eswin_codec/lib/codec/soft_decoder/mp3/src/mp3dec.c:372-376 | The bits at byte pointer and bit offset are the slice of the main data that the cursor says |
| Mp3Decode.MP3Decoder.FillMainData | libaudio/components/eswin-adf-libs/eswin_codec/lib/codec/soft_decoder/mp3/src/mp3dec.c:344-363 | The main data buffer is always a suffix of all slot bytes taken in; a frame that goes on starts exactly mainDataBegin bytes before its slot, the others are appended |
| Mp3Decode.MP3Decoder.StepFactors | libaudio/components/eswin-adf-libs/eswin_codec/lib/codec/soft_decoder/mp3/src/mp3dec.c:369-376 | The scale factor stage starts at the sum of the part23 lengths so far and moves by exactly the bits it reads; the factors stored at granule and channel are the fields at that place of the main data, or those of granule 0 where scfsi says so, and nothing else that is kept changes but preFlag and, for the right channel, the data for intensity stereo |
| Mp3Decode.StepStored | libaudio/components/eswin-adf-libs/eswin_codec/lib/codec/soft_decoder/mp3/src/mp3dec.c:364-394 | Storing one more step overwrites no other factors and, of the values of the channel, only those of the step before: all factors of the steps so far and the spectrum and bound of the last step of each channel are kept, and what granule 1 copies are the long factors of granule 0 in its channel |
| Mp3Decode.MP3Decoder.StepCodes | libaudio/components/eswin-adf-libs/eswin_codec/lib/codec/soft_decoder/mp3/src/mp3dec.c:383-394 | The Huffman stage decodes exactly the rest of the part23 bits and leaves the cursor at their end |
| Mp3Decode.MP3Decoder.DecodeStep | libaudio/components/eswin-adf-libs/eswin_codec/lib/codec/soft_decoder/mp3/src/mp3dec.c:369-394 | After each granule and channel 8 * pointer + offset is the sum of the part23 lengths, the offset is 0 to 7, and mainBits is the total less the cursor; factors, spectrum and bound of the step are in the buffers of its granule and channel and nothing else that is kept changes; a failing step is one whose bits go beyond the main data, whose scale factors exceed its part23 length, or whose codes are cut off |
| Mp3Decode.MP3Decoder.DecodeGranule | libaudio/components/eswin-adf-libs/eswin_codec/lib/codec/soft_decoder/mp3/src/mp3dec.c:364-394 | After a granule the buffers hold, channel by channel, the spectrum and bound of its steps, and the factors of all steps so far |
| Mp3Decode.MP3Decoder.DecodeMainData | libaudio/components/eswin-adf-libs/eswin_codec/lib/codec/soft_decoder/mp3/src/mp3dec.c:364-394 | On success all granules and channels are decoded exactly, scale factors and spectrum, each from its own bits; otherwise all before the failing one are. Then huffDecBuf and nonZeroBound of every channel are spectrum and bound of its last step, and sfis of every granule and channel are the factors of that step, no two sharing a buffer |
| Mp3Decode.MP3Decoder.MP3Decode | libaudio/components/eswin-adf-libs/eswin_codec/lib/codec/soft_decoder/mp3/src/mp3dec.c:278-414 | Each error exactly under its condition; pointer advance equals the decrease of bytesLeft; the bytes taken in grow by exactly the slot; a decoded frame's main data are the mainDataBegin bytes before its slot and the slot; and the buffers then hold spectra, bounds and factors of all its granules and channels as after DecodeMainData |
| RingBuffer.FullBufferReads | libaudio/components/audio_pipeline/ringbuf.c:186-200 | A full buffer lets a reader go on if and only if it has four bytes, or holds all that is asked for, or the stream has ended |
| RingBuffer.TwoSectionsExactly | libaudio/components/audio_pipeline/ringbuf.c:231-249 | One caller's read is over after its first locked section if and only if it does not ask for more than is held, of at least a word and not of whole words, at the end of the stream |
| RingBuffer.HeldDrops | libaudio/components/audio_pipeline/ringbuf.c:231-247 | Taking bytes off with the wrap test '>' removes the oldest of the queue |
| RingBuffer.HeldGrows | libaudio/components/audio_pipeline/ringbuf.c:312-324 | Writing behind the last byte, wrapping around, appends to the queue, wherever the pointers stand in [0, size] |
| RingBuffer.RingBuf.rb_reset | libaudio/components/audio_pipeline/ringbuf.c:118-131 | Empty queue, all flags cleared |
| RingBuffer.RingBuf.TakeOut | libaudio/components/audio_pipeline/ringbuf.c:231-250 | The first n bytes go to the caller in order, the rest stay; p_w stays congruent to p_r + fill_cnt |
| RingBuffer.RingBuf.PutIn | libaudio/components/audio_pipeline/ringbuf.c:312-327 | n bytes are appended in order; p_w stays congruent to p_r + fill_cnt |
| RingBuffer.RingBuf.rb_read | libaudio/components/audio_pipeline/ringbuf.c:169-265 | With one caller: how many bytes are delivered (a multiple of four unless all or the end), that they are the oldest, the return value for every combination of flags, and both semaphore counts; with a null buffer the same, unless there is a second section, which writes through the moved null pointer |
| RingBuffer.RingBuf.rb_write | libaudio/components/audio_pipeline/ringbuf.c:267-341 | With one caller: how many bytes are accepted, that they are appended, the return value, and both semaphore counts |
| RingBuffer.Drain | libaudio/components/audio_pipeline/ringbuf.c:169-265 | After the end of the stream repeated reads of any size deliver every remaining byte without waiting, and then RB_DONE, whatever the abort and unblock flags say |
| RingBuffer.AbortHidesBytes | libaudio/components/audio_pipeline/ringbuf.c:186-265 | A read that has taken whole words and is then aborted returns RB_ABORT, although they have left the buffer |
| RingBuffer.PseudoReadGoesWild | libaudio/components/audio_pipeline/ringbuf.c:231-249 | Five bytes, the end of the stream and a read of eight bytes into a null buffer meet that case |
| RingMachine.InvAlways | libaudio/components/audio_pipeline/ringbuf.c:169-399 | The invariant of reader, writer and control calls holds after every interleaving of their steps |
| RingMachine.BytesConserved | libaudio/components/audio_pipeline/ringbuf.c:169-341 | After every run: bytes accepted are bytes delivered followed by bytes held, in order; fill is at most size; every return value other than RB_ABORT is the number of bytes the call moved, or non-positive and none moved |
| RingMachine.RingAlways | libaudio/components/audio_pipeline/ringbuf.c:231-249 | After every run the bytes held lie in the array in order, p_w is congruent to p_r plus their number, and both pointers are in [0, size], one past the end included |
| RingMachine.RingFromStart | libaudio/components/audio_pipeline/ringbuf.c:231-249 | In particular from the start, with pointers at 0 and any contents of the array |
| RingMachine.NoDeadlock | libaudio/components/audio_pipeline/ringbuf.c:221-229 | No reachable state has reader and writer both waiting on zero semaphores |
| RingMachine.ReaderNotForgotten | libaudio/components/audio_pipeline/ringbuf.c:202-229 | A reader that waits on zero while no call owes it a post has nothing to wake up for: no bytes, no end, no abort, no unblock |
| RingMachine.WriterForgotten | libaudio/components/audio_pipeline/ringbuf.c:289-310 | A writer that waits on zero while no call owes it a post could go on if and only if the end of the stream was announced |
| RingMachine.DoneForgetsWriter | libaudio/components/audio_pipeline/ringbuf.c:381-389 | Such a run exists: rb_done_write does not post can_write |
| RingMachine.DoneAlone | libaudio/components/audio_pipeline/ringbuf.c:381-389 | From every state rb_done_write, without steps of others in between, sets its flag, posts can_read once and changes nothing else, as for one caller |
| RingMachine.UnblockAlone | libaudio/components/audio_pipeline/ringbuf.c:391-399 | and so does rb_unblock_reader |
| RingMachine.AbortAlone | libaudio/components/audio_pipeline/ringbuf.c:343-371 | and rb_abort, which sets two flags and posts both semaphores once |
| RingMachine.EarlyReadsDrain | libaudio/components/audio_pipeline/ringbuf.c:194-208 | A read that starts after the end was announced never waits, and decides for RB_DONE only over an empty buffer |
| RingMachine.LateDoneLeavesFew | libaudio/components/audio_pipeline/ringbuf.c:194-208 | A call about to return RB_DONE over bytes started before the announcement, and they are fewer than four and than it asks for |
| RingMachine.DoneLeavesBytes | libaudio/components/audio_pipeline/ringbuf.c:194-208 | And whenever one to three bytes are held, the end is not announced, and reader and lock are free, a call that asks for more can return RB_DONE over them: the end is announced between its two looks |
| RingMachine.DoneLeavesTwoBytes | libaudio/components/audio_pipeline/ringbuf.c:194-208 | Such a run from the start: two bytes written, four asked for |
| RingMachine.SpinsDown | libaudio/components/audio_pipeline/ringbuf.c:186-229 | With four bytes or more, every step inside a call that moves no byte lowers a measure |
| RingMachine.NoLivelock | libaudio/components/audio_pipeline/ringbuf.c:186-310 | So with four bytes or more reader and writer move a byte or return after a bounded number of their steps |
| RingMachine.SmallBufferSpins | libaudio/components/audio_pipeline/ringbuf.c:193 | With a full buffer of fewer than four bytes, a reader that asks for more and a writer that has more wake each other up for ever: a cycle of eleven steps |
| RingMachine.SmallBufferReached | libaudio/components/audio_pipeline/ringbuf.c:193 | With every buffer of one to three bytes a run from the start leads into that cycle |
| LogCache.SetThenLookup | libaudio/idf_components/log/log.c:106-131 | Setting a level changes what the list says about that text and about no other, and a failed allocation changes nothing |
| LogCache.TopIsOldest | libaudio/idf_components/log/log.c:261-264 | The entry at index 0 is the one renewed longest ago |
| LogCache.SinkStep | libaudio/idf_components/log/log.c:293-299 | Swapping the newest entry with its older child keeps the rest a heap |
| LogCache.SetKeepsFresh | libaudio/idf_components/log/log.c:133-142 | After a level is set the cache is right if and only if no second cached pointer with the same text holds another level |
| LogCache.StaleLevel | libaudio/idf_components/log/log.c:222 | Two pointers with one text, both looked up: after a set through the first, a lookup of the second returns the old level although the list says the new one |
| LogCache.Log.heap_bubble_down | libaudio/idf_components/log/log.c:291-300 | Sinking to a leaf keeps the entries and restores heap order and distinct generations from any slot that was just renewed |
| LogCache.Log.get_cached_log_level | libaudio/idf_components/log/log.c:214-243 | Found exactly when the pointer is cached, with its level; in the full cache the entry is renewed and no other changes |
| LogCache.Log.add_to_cache | libaudio/idf_components/log/log.c:245-270 | The new entry is added, or replaces exactly the one at the top; order and distinctness are kept |
| LogCache.Log.esp_log_level_get | libaudio/idf_components/log/log.c:149-171 | A cached pointer gets the level in the cache, any other that of the plain list, else the default; while cache and list agree it is always the latter; a miss on the full cache evicts exactly the least recently renewed entry |
| LogCache.Log.esp_log_level_set | libaudio/idf_components/log/log.c:94-142 | The list is updated, the first matching cache entry too; the wildcard clears both; with one cached pointer to a text the cache stays right |
| LogCache.Transparent | libaudio/idf_components/log/log.c:94-171 | For every sequence of set, wildcard set, get and failed allocation the levels returned are those of the plain list, if no two pointers that are cached or looked up have one text |
| SubbandFifo.LoAge | libaudio/components/eswin-adf-libs/eswin_codec/lib/codec/soft_decoder/mp3/src/subband.c:78-89 | Before block t's filter, position (vindex + x) mod 8 of the lower half in bank t mod 2 was last written by block t - 2x |
| SubbandFifo.HiAge | libaudio/components/eswin-adf-libs/eswin_codec/lib/codec/soft_decoder/mp3/src/dct32.c:200-236 | and that of the upper half and of row 16 by block t - 1 - 2x |
| SubbandFifo.ShuffleIsTransform | libaudio/components/eswin-adf-libs/eswin_codec/lib/codec/soft_decoder/mp3/src/dct32.c:200-277 | The values for row i of the lower and upper half are coefficients 16 + i and 16 - i of the transform that is put together from the four of eight values in bit-reversed order |
| SubbandFifo.FDCT32 | libaudio/components/eswin-adf-libs/eswin_codec/lib/codec/soft_decoder/mp3/src/dct32.c:200-277 | Each value is written at its cell and eight further, the lower half in the bank of the block's parity, the upper half and row 16 in the other; no other cell changes, with and without rescaling |
| SubbandFifo.BlockAppended | libaudio/components/eswin-adf-libs/eswin_codec/lib/codec/soft_decoder/mp3/src/dct32.c:200-277 | The write appends the block to the channel's history as the buffer stands for it |
| SubbandFifo.OtherChannel | libaudio/components/eswin-adf-libs/eswin_codec/lib/codec/soft_decoder/mp3/src/subband.c:78-79 | and leaves the other channel's cells alone |
| SubbandFifo.ReadsHistory | libaudio/components/eswin-adf-libs/eswin_codec/lib/codec/soft_decoder/mp3/src/polyphase.c:122-176 | The eight cells read at vindex hold blocks t, t-2, ..., t-14, those at +16 to +23 and row 16 blocks t-1, ..., t-15, zero before the start, all inside the buffer |
| SubbandFifo.ConvolveRow | libaudio/components/eswin-adf-libs/eswin_codec/lib/codec/soft_decoder/mp3/src/polyphase.c:73-91 | Both sums of a row are those of its eight low and eight high cells with the row's coefficients |
| SubbandFifo.Polyphase | libaudio/components/eswin-adf-libs/eswin_codec/lib/codec/soft_decoder/mp3/src/polyphase.c:112-294 | Every one of the 32 samples of each channel is the filter's answer to the histories, at its interleaved place, and nothing else is written |
| SubbandFifo.SubbandInfo.Subband | libaudio/components/eswin-adf-libs/eswin_codec/lib/codec/soft_decoder/mp3/src/subband.c:60-95 | For any number of granules the PCM of every block is a function of the shift register of blocks up to it, by channel; vindex follows the block count |
| Imdct.AntiAlias | libaudio/components/eswin-adf-libs/eswin_codec/lib/codec/soft_decoder/mp3/src/imdct.c:73-115 | In place as out of place: every sample is touched at most once, from the samples before |
| Imdct.TruncatedIsFull | libaudio/components/eswin-adf-libs/eswin_codec/lib/codec/soft_decoder/mp3/src/imdct.c:744-747 | If x is zero from the bound on, min((bound + 7) / 18, 31) butterflies give what all 31 give |
| Imdct.RaisedBound | libaudio/components/eswin-adf-libs/eswin_codec/lib/codec/soft_decoder/mp3/src/imdct.c:759 | The raised bound is a zero bound of the smoothed spectrum |
| Imdct.ButterflyGain | libaudio/components/eswin-adf-libs/eswin_codec/lib/codec/soft_decoder/mp3/src/imdct.c:67-70 | The gain is at most 1.372 up to rounding, so inputs below 2^30 stay inside 32 bits |
| Imdct.CoefficientsAreRotations | libaudio/components/eswin-adf-libs/eswin_codec/lib/codec/soft_decoder/mp3/src/trigtabs.c:217-232 | Each pair of coefficients is 2^31 times cosine and sine of the angle whose tangent is the coefficient ci of the standard, up to rounding |
| Imdct.ButterflyTurns | libaudio/components/eswin-adf-libs/eswin_codec/lib/codec/soft_decoder/mp3/src/imdct.c:73-115 | A butterfly turns the pair below and above the boundary by that angle, up to rounding |
| Imdct.Counts | libaudio/components/eswin-adf-libs/eswin_codec/lib/codec/soft_decoder/mp3/src/imdct.c:743-764 | The block counts are in range, a granule of long blocks has no short transforms, and skipped blocks lie behind the bound |
| Imdct.OverlapBlock | libaudio/components/eswin-adf-libs/eswin_codec/lib/codec/soft_decoder/mp3/src/imdct.c:663-689 | A block without samples gets its windowed overlap, odd samples of odd blocks negated, and an empty overlap |
| Imdct.HybridTransform | libaudio/components/eswin-adf-libs/eswin_codec/lib/codec/soft_decoder/mp3/src/imdct.c:619-700 | Output and overlap of all 32 blocks are as if none had been skipped; the overlap from the returned count on is empty; all outputs are assigned; block number nBlocksOut is non-zero if and only if a block without samples has a non-zero windowed overlap, and all behind it are zero |
| Imdct.ReturnedBlock | libaudio/components/eswin-adf-libs/eswin_codec/lib/codec/soft_decoder/mp3/src/imdct.c:649-699 | The last block that sounds is the returned one, so that it is not counted |
| Imdct.IndexNotCount | libaudio/components/eswin-adf-libs/eswin_codec/lib/codec/soft_decoder/mp3/src/imdct.c:614-616 | For all transforms: if block 0 is the only one with samples and is not silent, and the overlap of block 1 is not, then blocks 0 and 1 are non-zero and the result is 1 |
| Imdct.ImdctChannel.IMDCT | libaudio/components/eswin-adf-libs/eswin_codec/lib/codec/soft_decoder/mp3/src/imdct.c:718-780 | The same for a granule with alias reduction, with explicit windows: the current half of a block gets window 0 below the cutoff of a mixed block and else the block type, and its overlap the window that it had in the granule before; the overlap beyond numPrevIMDCT stays empty from granule to granule |
| Imdct.TwoGranules | libaudio/components/eswin-adf-libs/eswin_codec/lib/codec/soft_decoder/mp3/src/imdct.c:636-642 | Over two calls the overlap of every block in the second granule is windowed as its current half was in the first, by side information and cutoff of the first, for long, mixed and short granules |
| DqChan.ReorderBand | libaudio/components/eswin-adf-libs/eswin_codec/lib/codec/soft_decoder/mp3/src/dqchan.c:325-345 | In place through the work buffer as out of place: the windows of the band dequantized and interleaved, nothing else touched |
| DqChan.LongRest | libaudio/components/eswin-adf-libs/eswin_codec/lib/codec/soft_decoder/mp3/src/dqchan.c:307-308 | Leaving the long bands early changes nothing, since the rest is zero |
| DqChan.ShortRest | libaudio/components/eswin-adf-libs/eswin_codec/lib/codec/soft_decoder/mp3/src/dqchan.c:349-350 | The same for the short bands |
| DqChan.DequantLong | libaudio/components/eswin-adf-libs/eswin_codec/lib/codec/soft_decoder/mp3/src/dqchan.c:293-309 | The long bands are dequantized band by band with their gains; the returned band is the last one with a non-zero sample, or 0, and the place reached is the end of the first band that reaches the bound |
| DqChan.DequantShort | libaudio/components/eswin-adf-libs/eswin_codec/lib/codec/soft_decoder/mp3/src/dqchan.c:322-351 | All 13 bands are out[3s + 3j + w] = dq(in[3s + w * width + j]); each returned band is the last one whose window has a non-zero sample, or the first band; the sample reached is the end of the first band that reaches the bound; also when a mixed block enters behind the last non-zero sample |
| DqChan.GainsAreExponents | libaudio/components/eswin-adf-libs/eswin_codec/lib/codec/soft_decoder/mp3/src/dqchan.c:281-289 | The gain of a band is minus four times the exponent of the power of two that the standard gives it, from global gain, subblock gain, scale factor, preFlag and scale, less a half for the inverse MDCT and plus a half for middle and side channels |
| DqChan.DequantChannel | libaudio/components/eswin-adf-libs/eswin_codec/lib/codec/soft_decoder/mp3/src/dqchan.c:244-375 | The whole channel for long, short and mixed blocks: cbEndL is the last long band with a non-zero sample, or 0; cbEndS of each window the last short band with one in that window, or the first short band; cbEndSMax the largest of them; the bound stays for long blocks and is else the end of the band at which the loop stops, a zero bound |
| DqChan.TablesFit | libaudio/components/eswin-adf-libs/eswin_codec/lib/codec/soft_decoder/mp3/src/mp3tabs.c:131-181 | All nine band tables meet the assumptions: the work buffer takes the widest band, and long and short bands of mixed blocks meet |
| Element.OpensAndCloses | libaudio/components/audio_pipeline/audio_element.c:164-205 | Under the rules there are as many close as open calls, or one fewer when open |
| Element.ProcessedWhileOpen | libaudio/components/audio_pipeline/audio_element.c:328-334 | Under the rules every process call follows an open call with nothing but process calls between |
| Element.Element.process_init | libaudio/components/audio_pipeline/audio_element.c:164-195 | Open is called; a failed open is closed again and ends in STOPPED or ERROR, not running |
| Element.Element.on_cmd_stop | libaudio/components/audio_pipeline/audio_element.c:220-246 | Closes exactly what is open and ends in STOPPED with STOPPED_BIT |
| Element.Element.on_cmd_finish | libaudio/components/audio_pipeline/audio_element.c:248-263 | Closes exactly what is open and ends in FINISHED, unless stopped or in error before |
| Element.Element.on_cmd_resume | libaudio/components/audio_pipeline/audio_element.c:265-286 | Running elements go on; others are opened, and run without waiting exactly if open returns ESP_OK or AEL_IO_DONE, and else fail closed |
| Element.Element.on_cmd | libaudio/components/audio_pipeline/audio_element.c:288-326 | Every command keeps the invariant, and state, calls, bits and is_running are given for each: STOP and PAUSE end closed and signalled, FINISH closes and signals unless stopped or in error before, and after RESUME the element runs exactly if it did or open succeeds |
| Element.Element.process_running | libaudio/components/audio_pipeline/audio_element.c:328-369 | Processes only what runs; the result decides the next state; with reset_state called meanwhile the rules are broken if and only if process then returns 0 or AEL_IO_DONE, by a second open |
| Element.Element.task_round | libaudio/components/audio_pipeline/audio_element.c:469-483 | The command at the head of the queue is executed; if the element runs then, process is called once and the element closed unless its result keeps it running, and if not, process is not called: the trace grows by exactly these calls and the state is that of the result; every round keeps the invariant; a stop request disappears only when STOPPED_BIT is set and the element does not run |
| Element.Element.task_exit | libaudio/components/audio_pipeline/audio_element.c:485-501 | Leaves nothing open and all waiters signalled |
| Element.Element.audio_element_run | libaudio/components/audio_pipeline/audio_element.c:1079-1114 | Starts the element's thread with an empty queue unless it runs already |
| Element.Element.audio_element_stop | libaudio/components/audio_pipeline/audio_element.c:1239-1278 | At once when not running; else STOP is queued at most once and STOPPED_BIT cleared |
| Element.Element.audio_element_wait_for_stop_ms | libaudio/components/audio_pipeline/audio_element.c:1280-1292 | ESP_OK exactly when the element does not run or STOPPED_BIT comes; a stop that was asked for is in time if the task gets a round for each queued command |
| Element.Element.audio_element_pause | libaudio/components/audio_pipeline/audio_element.c:1162-1189 | ESP_FAIL without a task or with a full queue; elements that have ended are marked PAUSED; otherwise ESP_OK if and only if the rounds of the wait come to a PAUSE before a DESTROY |
| Element.Element.audio_element_resume | libaudio/components/audio_pipeline/audio_element.c:1191-1237 | The result for every state, threshold and queue; ESP_FAIL if the rounds of the wait come neither to a RESUME nor to the end, and otherwise ESP_OK or what the wait for the output buffer returns, whatever open returns |
| Element.Element.audio_element_terminate | libaudio/components/audio_pipeline/audio_element.c:1116-1146 | ESP_OK if and only if there is no task or the rounds of the wait come to a DESTROY, and the element is closed then; ESP_FAIL for a full queue |
| Element.Element.WaitBit | libaudio/components/audio_pipeline/audio_element.c:1166-1236 | While a caller waits, a bit of a command is set if and only if the rounds come to that command, for PAUSED_BIT before a DESTROY, and for RESUMED_BIT and TASK_DESTROYED_BIT also by a DESTROY |
| Element.Element.audio_element_reset_state | libaudio/components/audio_pipeline/audio_element.c:504-507 | Keeps the invariant if and only if the element is closed |
| Element.AnyRun | libaudio/components/audio_pipeline/audio_element.c:164-369 | Over every run of rounds with any results, API calls and commands: RUNNING iff open iff running iff no wait; STOPPED_BIT implies not running; stopping implies a STOP is queued; open and close alternate; an ended task has nothing open |
| Element.SecondOpen | libaudio/components/audio_pipeline/audio_element.c:328-369 | A new element that is resumed, and whose process function calls reset_state and returns 0, is opened twice without a close |
| Element.StopIsAnswered | libaudio/components/audio_pipeline/audio_element.c:1239-1292 | A stop of a running element succeeds, and it is closed, if the task gets a round for each command, whatever open and process return; it fails exactly for a full queue without a stop in it |
| Pipeline.SameTag | libaudio/components/audio_pipeline/audio_pipeline.c:71-81 | Tags are compared letter by letter, and upper and lower case letters are the same |
| Pipeline.AudioPipeline.pipeline_rb_linked | libaudio/components/audio_pipeline/audio_pipeline.c:459-488 | All but the first read from the buffer made last, all but the last write into a new one |
| Pipeline.AudioPipeline.LinkItem | libaudio/components/audio_pipeline/audio_pipeline.c:502-512 | Linking one item changes the ends of its element and no other, and keeps the pipeline sound if and only if the buffer passed on is null or alive or nothing is passed on |
| Pipeline.AudioPipeline.audio_pipeline_link | libaudio/components/audio_pipeline/audio_pipeline.c:490-516 | Linking n elements makes n - 1 new buffers, the i-th hosted and written by element i and read by element i + 1; an element named again keeps its last ends; a tag that names nobody stops it unlinked; buffers that such a call left stay in front of those of the next; linking one element is sound if and only if the buffer kept in the static variable is null or alive |
| Pipeline.AudioPipeline.audio_pipeline_unlink | libaudio/components/audio_pipeline/audio_pipeline.c:518-552 | Every buffer is destroyed exactly once, the list is empty, and no registered element refers to a destroyed buffer |
| Pipeline.SingleDangles | libaudio/components/audio_pipeline/audio_pipeline.c:459-464 | After any link that succeeds and an unlink, the element of a single link refers to a destroyed buffer; the first link succeeds exactly if all its tags name elements |

## Left out

- HuffmanBlock.DecodeHuffman: region0Count + region1Count is assumed to be at most 20, because the code indexes the band table with it unchecked.
- Mp3Decode.MP3Decoder.MP3Decode: a bit rate from the table and useSize == 0 only (the layer is not looked at, as in the code); free format, reformatted packets, and the stages behind the spectrum are not in this method, which assumes that they succeed and records the spectra.
- BitStream.BitStreamInfo.GetBits: shifting by 32 or more, which only happens after more bits were requested than there are, is taken to give zero.
- RingBuffer.RingBuf.rb_read: the lock is always free and nobody posts while the one caller waits, so that a wait ends by a token left over or by timeout; RingMachine has the other callers. What happens after a write through the moved null pointer is not modelled.
- RingMachine.BytesConserved: rb_reset, which is not protected by the lock, is not a step of the machine, and its reader passes a buffer.
- LogCache.Log.esp_log_level_set: levels are below 8, as the enumeration has it, since the cache keeps three bits.
- SubbandFifo.SubbandInfo.Subband: the number of channels does not change during the life of the object.
- Element.Element.WaitBit: no other call is made while one waits, and time is the number of rounds that the task gets; what the wait for the output buffer returns is a parameter.
- Element.AnyRun: handlers and API calls are atomic; open and close are present; reset_state is only called on a closed element.
- Pipeline.AudioPipeline.audio_pipeline_link: memory is always available.
- The numeric transforms (dequantization polynomials, stereo processing, inverse MDCT, DCT-32 passes, window and filter coefficients) are uninterpreted; sums are unbounded integers except where ButterflyGain bounds them.
- The Huffman, window and filter tables are not copied, but for pair table 7; invalid tables, for which the code has asserts, are treated as errors.
- The two loops for one-shot and for jump tables are one method with the kind of table as a case, since a one-shot table is a jump table without jumps.
- PolyphaseMono and PolyphaseStereo are one method with the number of channels as a case; the eight taps that the macros unroll are loops, and IMDCT is modelled for one channel.
- Huffman values are numbers with a sign bit added as 0x80000000, as in the code, not two's complement integers.
- The in-place changes that the transforms make to their inputs are not modelled: IMDCT36, IMDCT12x3 and the DCT passes take values.
- The guard bit counts that later stages use are parameters.
- Ring buffer creation and destruction failures, null handles, and the POSIX queue, mutex, thread and clock layers.
- Elements without a task, callbacks of elements, event reports, and the ring buffer calls that handlers make.
- Listener handling, breakup and relink of pipelines.
- File, HTTP and PCM streams, URL handling, setters and getters.
