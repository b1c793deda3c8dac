# Verification of the camera service and virtual camera

A Dafny 4.11 model of the parts of the repository whose behaviour is hardest to see from reading one
function, with proofs. `dafny verify dfyconfig.toml` checks everything.

## What is modelled

**H.264 bits and the SPS parser** (`Bits`, `BitReading`, `BitWriting`, `Golomb`, `BitStream`, `Codes`,
`Scaling`, `StandardScaling`, `SpsSyntax`, `Sps`, `ParseStability`, with `Wrappers`). The cursor of
`bs.h` is a class over a byte array. Its meaning is a bit string: for a reader the bits ahead, for a writer the bits written, where the byte in progress holds
its bits right-aligned. Reads, writes, exponential Golomb codes (sections 9.1 and 9.1.1 of ITU-T H.264),
trailing bits and the scaling lists are proved against that meaning, and the SPS parser is proved to
invert the syntax table of section 7.3.2.1.1 and, for the VUI, of section E.1.1.

**The decode queue and its ring** (`DecodeQueue`, `CircularList`). One producer and one consumer share
a ring of slots with nothing but each slot's `need_read` flag between them. A run is any interleaving
of their steps; the slot buffers live in a heap with explicit allocation and freeing.

**The thread start handshake** (`ThreadStart`). Any number of callers of `Start`, the threads they
create, three mutexes with owners and the polled flag, one lock, unlock or field access a step.

**Fragments** (`Reassembly`). The sender that cuts long units and the two receivers that put them
together, one of which does not clear its length.

**Pictures** (`Strides`, `Colour`, `CopyFrame`). The 4:2:0 conversion with strided and interleaved
planes, the NV21 and YV12 layouts, and the unrolled row copy with its caller.

**Camera bookkeeping** (`CameraStates`, `CameraReports`, `Audio`, `AllowedUsers`). Status and listener
notifications, torch charging, the cached audio restriction and the users who may hold a camera, each
over every interleaving of critical sections.

## What came out

- `decode_scaling_list` reads each delta as an unsigned code where section 7.3.2.1.1.1 of H.264 has a
  signed one. Outside 4:4:4 scaling lists come out right exactly when each is absent or all its deltas
  are 0 or 1.
- For 4:4:4 `decode_scaling_matrices` also takes the 8x8 lists in another order than section 7.3.2.1.1,
  so that even such lists come out right only when they are in place.
- `h264_sps_read` takes the high-profile block to be present from profile 100 on. For profiles 44, 83
  and 86 it misreads the block as the fields that follow it, and may return wrong sizes without an error.
- `sCopyFrame` copies H + 8 rows unless H is a multiple of 8. Its caller passes ten rows less than fit,
  so it stays inside both images.
- The NV21 layout runs past the image for odd sizes, which `produceFrame` does not check.
- The receiver in `jrtplibutil_jni.cpp` puts an old unit in front of a new one when a last fragment
  arrives without its first one.
- A report that a torch is on, between the first step of a camera's removal and the removal of the
  torch, leaves a battery note open when somebody has asked for that torch. A report there that brings
  the camera up leaves listeners with a camera that is gone.
- A client of a user who is no longer allowed can outlive the user switch, but only while a disconnect
  of its own that began before still owes its removal.

Each is a lemma below, with the condition under which the code does meet its purpose.

## Model

| member | source | states |
|---|---|---|
| BitReading.ReadSplit | VirtualCamera/AnsyncDecoder/bs.h:73-100 | reading across a boundary is reading the part before it, shifted up, and then the rest |
| BitReading.ReadInverse | VirtualCamera/AnsyncDecoder/bs.h:59-103 | n bits of a number read back as the number, with nothing after them consumed |
| BitReading.StepInside | VirtualCamera/AnsyncDecoder/bs.h:80-91 | one turn of the loop that stays inside a byte yields exactly the bits asked for and leaves the cursor behind them |
| BitReading.StepByteEnd | VirtualCamera/AnsyncDecoder/bs.h:92-99 | one turn that empties a byte keeps result plus what is still to be read equal to the whole |
| BitReading.ReadPastEnd | VirtualCamera/AnsyncDecoder/bs.h:75-78 | past the end every read is 0 and moves nothing |
| BitReading.SkipBits | VirtualCamera/AnsyncDecoder/bs.h:157-166 | any cursor n bits further on, however reached, sees the bits of the old one without the first n |
| BitReading.ShowIsRead | VirtualCamera/AnsyncDecoder/bs.h:146-154 | the shifts over the 32-bit word pick the next n bits of the stream at any alignment while n + 8 - i_left <= 32 |
| BitStreams.BitStream.constructor | VirtualCamera/AnsyncDecoder/bs.h:44-50 | a new cursor stands at bit 0 and sees the bits of the whole buffer |
| BitStreams.BitStream.Eof | VirtualCamera/AnsyncDecoder/bs.h:55-58 | true exactly when no bit is left |
| BitStreams.BitStream.Read | VirtualCamera/AnsyncDecoder/bs.h:59-103 | for n <= 32 from any cursor: the big-endian value of the next n bits, zero padded past the end, and bs_pos moves to min(pos + n, 8 len) |
| BitStreams.BitStream.Read1 | VirtualCamera/AnsyncDecoder/bs.h:105-123 | the same as reading one bit |
| BitStreams.BitStream.Show | VirtualCamera/AnsyncDecoder/bs.h:146-154 | with four bytes left, what a read of the same width would return, without moving; 0 at the end |
| BitStreams.BitStream.Skip | VirtualCamera/AnsyncDecoder/bs.h:157-166 | moves on by exactly n bits, so skipping after showing leaves what reading leaves |
| BitStreams.BitStream.ReadUe | VirtualCamera/AnsyncDecoder/bs.h:169-178 | the ue reading of the bits ahead, for any bits, with 32-bit wrap-around of the result |
| BitStreams.BitStream.ReadSe | VirtualCamera/AnsyncDecoder/bs.h:179-184 | the se reading of the bits ahead |
| BitStreams.BitStream.ReadTe | VirtualCamera/AnsyncDecoder/bs.h:186-197 | the te reading of the bits ahead for each range x |
| BitStreams.BitStream.Write | VirtualCamera/AnsyncDecoder/bs.h:199-221 | appends exactly the low n bits to the bits written, from any alignment and over any old contents, or changes nothing without room; bytes before p stay; every store is inside the buffer |
| BitStreams.BitStream.Write1 | VirtualCamera/AnsyncDecoder/bs.h:223-236 | ors the number into the byte in progress; for the bits 0 and 1 it appends exactly that bit, or changes nothing at the end |
| BitStreams.BitStream.Align0 | VirtualCamera/AnsyncDecoder/bs.h:238-246 | fills the byte in progress with zeros |
| BitStreams.BitStream.Align1 | VirtualCamera/AnsyncDecoder/bs.h:247-256 | fills the byte in progress with ones |
| BitStreams.BitStream.WriteUe | VirtualCamera/AnsyncDecoder/bs.h:266-303 | appends the code word of section 9.1 of H.264 and bs_pos grows by exactly bs_size_ue |
| BitStreams.BitStream.WriteSe | VirtualCamera/AnsyncDecoder/bs.h:305-308 | appends the se code word and bs_pos grows by bs_size_se |
| BitStreams.BitStream.WriteTe | VirtualCamera/AnsyncDecoder/bs.h:310-320 | appends the te code word for the range x and bs_pos grows by bs_size_te |
| BitStreams.BitStream.RbspTrailing | VirtualCamera/AnsyncDecoder/bs.h:322-329 | appends the stop bit and zeros to the byte boundary (section 7.3.2.11 of H.264) |
| Golomb.UeBitsBinary | VirtualCamera/AnsyncDecoder/bs.h:299-301 | the code word is val + 1 in binary with 2 * digits - 1 bits, which is why one bs_write suffices |
| Golomb.ReadUeInverse | VirtualCamera/AnsyncDecoder/bs.h:169-178 | reading a ue code word gives its number back and consumes exactly the code, for all numbers up to 2^31 - 2 |
| Golomb.ReadSeInverse | VirtualCamera/AnsyncDecoder/bs.h:179-184 | the same for se |
| Golomb.SeInverse | VirtualCamera/AnsyncDecoder/bs.h:179-184 | the se mapping of section 9.1.1 of H.264 is undone by the one in bs_read_se |
| Golomb.CodeSize | VirtualCamera/AnsyncDecoder/bs.h:287-299 | two halvings and the 256-entry table give the number of binary digits |
| Golomb.WriterTable | VirtualCamera/AnsyncDecoder/bs.h:269-279 | every entry of the table is the bit length of its index |
| Golomb.SizeTable | VirtualCamera/AnsyncDecoder/bs.h:333-347 | every entry of the second table is the length of that code word |
| Golomb.SizeUe | VirtualCamera/AnsyncDecoder/bs.h:331-371 | the second splitting scheme also gives the length of the code word, for val + 1 < 2^24 |
| Golomb.SizeSe | VirtualCamera/AnsyncDecoder/bs.h:373-376 | likewise for se |
| Golomb.SizeTe | VirtualCamera/AnsyncDecoder/bs.h:378-389 | likewise for te |
| Codes.ReadCode | VirtualCamera/AnsyncDecoder/bs.h:59-197 | any one written code reads back as its value whatever follows |
| Codes.ReadCodes | VirtualCamera/AnsyncDecoder/bs.h:59-197 | any sequence of codes reads back value for value |
| RoundTrip.WriteCodes | VirtualCamera/AnsyncDecoder/bs.h:199-320 | writing any mixture of codes appends their code words in order |
| RoundTrip.ReadCodesAt | VirtualCamera/AnsyncDecoder/bs.h:59-197 | reading a list of slots returns what the bits ahead say for each |
| RoundTrip.MixedRoundTrip | VirtualCamera/AnsyncDecoder/bs.h:59-329 | write any mixture of fixed, flag, ue, se and te codes and the trailing bits over any old buffer, up to the room the writer's own guard asks for: the matching reads return exactly the values and stop at the stop bit |
| Scaling.ScanIsPermutation | VirtualCamera/AnsyncDecoder/sps_pps.c:36-52 | both scan tables are permutations, with explicit inverses |
| StandardScaling.ScanIsZigzag | VirtualCamera/AnsyncDecoder/sps_pps.c:36-52 | for both sizes the code visits the places in the zigzag order of sections 8.5.6 and 8.5.7 of H.264, stated by row, column and diagonal and not by a table |
| StandardScaling.RankIsOrder | VirtualCamera/AnsyncDecoder/sps_pps.c:36-52 | the rank that puts the lists of the standard into their places numbers them in that order |
| StandardScaling.ZigzagIsUnscan | VirtualCamera/AnsyncDecoder/sps_pps.c:104-104 | so a run lands where the standard has it |
| StandardScaling.PresetsAreDefaults4 | VirtualCamera/AnsyncDecoder/sps_pps.c:55-67 | the 4x4 default tables are those of Table 7-3, diagonal by diagonal |
| StandardScaling.PresetsAreDefaults8 | VirtualCamera/AnsyncDecoder/sps_pps.c:69-86 | the 8x8 default tables are those of Table 7-4 |
| Scaling.UnscanAt | VirtualCamera/AnsyncDecoder/sps_pps.c:97-105 | entry i of the run stands at place scan[i], so each place is written once |
| Scaling.TailIsConstant | VirtualCamera/AnsyncDecoder/sps_pps.c:97-105 | once next is 0 the list repeats its last factor and reads no more bits |
| Scaling.RunHasNoZero | VirtualCamera/AnsyncDecoder/sps_pps.c:97-105 | a run never contains the factor 0 |
| Scaling.ListHasNoZero | VirtualCamera/AnsyncDecoder/sps_pps.c:88-107 | nor does a decoded list, if preset and fallback do not |
| Scaling.ChainHasNoZero | VirtualCamera/AnsyncDecoder/sps_pps.c:120-135 | nor does any list in a chain where each falls back to the one before |
| Scaling.PresetsHaveNoZero | VirtualCamera/AnsyncDecoder/sps_pps.c:55-86 | nor do the default tables |
| Scaling.MatricesHaveNoZero | VirtualCamera/AnsyncDecoder/sps_pps.c:109-139 | so whatever the bits are no factor of an SPS matrix is 0 |
| StandardScaling.MatricesAreStandardExactly | VirtualCamera/AnsyncDecoder/sps_pps.c:109-139 | outside 4:4:4: write eight lists by section 7.3.2.1.1.1 of H.264, with any deltas, in front of anything; the decoder makes of them what the fall-back rules of Table 7-2 say, and stops behind them, if and only if every list is absent or all its deltas are 0 or 1 |
| StandardScaling.MatricesOf444Exactly | VirtualCamera/AnsyncDecoder/sps_pps.c:120-136 | for 4:4:4, where the decoder reads all intra lists before all inter ones and the standard has them in turn: with no deltas but 0 and 1 behind the first 8x8 list, the twelve lists come out right if and only if the first seven have no others either and the lists are in place, which the predicate InPlace reads off the lists as written |
| StandardScaling.LateListMisplaced | VirtualCamera/AnsyncDecoder/sps_pps.c:127-136 | a flat list for 8x8 inter Y alone: inter stays at its preset, and intra Cb and Cr come out flat |
| StandardScaling.ListReadsExactly | VirtualCamera/AnsyncDecoder/sps_pps.c:88-107 | one list as it is written comes out as it is meant, whatever follows, if and only if it is absent or all its deltas are 0 or 1, because the code reads each delta as ue where the standard codes se |
| StandardScaling.FallingComesOutWrong | VirtualCamera/AnsyncDecoder/sps_pps.c:98-99 | the deltas -1 and -7 mean 7 throughout; the decoder starts the list with 10 |
| StandardScaling.ListIsStandardExactly | VirtualCamera/AnsyncDecoder/sps_pps.c:88-107 | the same of any bits on which the standard reads a list |
| StandardScaling.RunIsStandard | VirtualCamera/AnsyncDecoder/sps_pps.c:97-105 | the same for a run of factors: the first delta other than 0 and 1 leaves a wrong factor |
| StandardScaling.DeltaReadAsUnsigned | VirtualCamera/AnsyncDecoder/sps_pps.c:98-99 | one delta gives the standard factor exactly when it is 0 or 1 |
| Scaling.DecodeScalingList | VirtualCamera/AnsyncDecoder/sps_pps.c:88-107 | the array ends up as the fallback, the preset or the run put in its places, and the cursor behind what was read |
| Scaling.StoreAt | VirtualCamera/AnsyncDecoder/sps_pps.c:104-104 | an entry goes to its place and disturbs no earlier one |
| Scaling.DecodeThree | VirtualCamera/AnsyncDecoder/sps_pps.c:120-125 | three lists where the second and third fall back to their predecessor |
| SpsLayout.SpsInverse | VirtualCamera/AnsyncDecoder/sps_pps.c:332-493 | for every SPS laid out by section 7.3.2.1.1 of H.264 with any readable scaling lists, any VUI free of HRD parameters and any trailing bits, the parser returns its id and recovers every field, including the offset loop and the matrices |
| SpsLayout.SpsInverseExactly | VirtualCamera/AnsyncDecoder/sps_pps.c:379-392 | this holds if and only if the high-profile block is present exactly from profile_idc 100 on and its scaling lists are readable: only deltas of 0 and 1, and for 4:4:4 in place |
| ParseStability.SpsCutOff | VirtualCamera/AnsyncDecoder/sps_pps.c:469-475 | a set that ends in front of its trailing bits is incomplete and returns -1000 |
| ParseStability.NothingCutOffCompletes | VirtualCamera/AnsyncDecoder/sps_pps.c:332-493 | a set cut off at any bit never completes and returns a negative code |
| ParseStability.CompleteStays | VirtualCamera/AnsyncDecoder/sps_pps.c:332-493 | a parse that completes, of any bits whatever, does not depend on the bits behind those it has read |
| SpsLayout.HighBlockMisread | VirtualCamera/AnsyncDecoder/sps_pps.c:379-401 | with the high-profile block below profile 100, as profiles 44, 83 and 86 have it, a parse that completes has chroma_format_idc + 4 for the frame number length and, outside 4:4:4, the luma bit depth for the order count type, and above 10 bits of luma the set is rejected |
| SpsLayout.MissingBlockMisread | VirtualCamera/AnsyncDecoder/sps_pps.c:379-386 | without the block from profile 100 on the frame number length is taken for the chroma format, and rejects the set from 36 bits on |
| SpsLayout.MisreadCompletes | VirtualCamera/AnsyncDecoder/sps_pps.c:379-457 | a set of profile 44 for 16 by 16 pixels parses to the end and comes out as 32 by 48 pixels with four reference frames |
| SpsLayout.HeaderInverse | VirtualCamera/AnsyncDecoder/sps_pps.c:351-363 | profile, three constraint flags, five reserved bits, level and id read back |
| SpsLayout.HighInverse | VirtualCamera/AnsyncDecoder/sps_pps.c:380-391 | the high-profile block with readable scaling lists, or none, reads back and is consumed entirely |
| SpsLayout.PocInverse | VirtualCamera/AnsyncDecoder/sps_pps.c:396-421 | all three picture order count types read back |
| SpsLayout.SesInverse | VirtualCamera/AnsyncDecoder/sps_pps.c:413-416 | any list of signed offsets reads back in order |
| SpsLayout.PictureInverse | VirtualCamera/AnsyncDecoder/sps_pps.c:423-457 | frame counts, size, flags and cropping read back |
| SpsLayout.BodyInverse | VirtualCamera/AnsyncDecoder/sps_pps.c:394-475 | the part after the header reads back in front of any trailing bits |
| SpsSyntax.BodyKeeps | VirtualCamera/AnsyncDecoder/sps_pps.c:394-493 | parsing the body never loses the header or the high-profile block |
| Sps.H264SpsRead | VirtualCamera/AnsyncDecoder/sps_pps.c:333-493 | the return code and every field of the object are those of the parse of the bits behind the header byte; an error in the body leaves the id at -1 |
| Sps.ReadAfterHeaderAt | VirtualCamera/AnsyncDecoder/sps_pps.c:379-493 | the same from the high-profile block on, also when the chroma format is rejected |
| Sps.ReadHighBlock | VirtualCamera/AnsyncDecoder/sps_pps.c:379-392 | reads the block exactly from profile 100 on and rejects chroma_format_idc of 32 or more |
| Sps.ReadBodyAt | VirtualCamera/AnsyncDecoder/sps_pps.c:394-493 | the body with its two error exits, each with its own return code |
| Sps.ReadFieldsAt | VirtualCamera/AnsyncDecoder/sps_pps.c:396-467 | the fields behind the picture order count type, and the VUI skipped when its flag is set |
| Sps.ReadHeaderAt | VirtualCamera/AnsyncDecoder/sps_pps.c:351-363 | the header fields, with the reserved bits skipped |
| Sps.ReadPocAt | VirtualCamera/AnsyncDecoder/sps_pps.c:396-421 | each picture order count type assigns its own fields; the cycle length is capped at 256 |
| Sps.ReadOffsets | VirtualCamera/AnsyncDecoder/sps_pps.c:413-416 | the offsets land in order in the array |
| Sps.ReadPictureAt | VirtualCamera/AnsyncDecoder/sps_pps.c:423-457 | the remaining fields, with cropping zeroed when absent |
| Sps.DecodeScalingMatrices | VirtualCamera/AnsyncDecoder/sps_pps.c:109-139 | with the flag set all lists hold what their chain decodes; without it nothing changes |
| Sps.DecodeEights | VirtualCamera/AnsyncDecoder/sps_pps.c:127-136 | all three 8x8 lists of a side for chroma 4:4:4 and only the first otherwise |
| SpsLayout.VuiInverse | VirtualCamera/AnsyncDecoder/sps_pps.c:221-330 | the VUI parser consumes exactly the VUI of section E.1.1 of H.264, every optional part present or absent, as long as it holds no HRD parameters |
| SpsLayout.ReservedAspectEnds | VirtualCamera/AnsyncDecoder/sps_pps.c:229-239 | a reserved aspect_ratio_idc ends the VUI parse behind it |
| SpsLayout.NoTimingEnds | VirtualCamera/AnsyncDecoder/sps_pps.c:276-283 | so does a timing with no units or no time scale, behind every part in front of it |
| Sps.DecodeVui | VirtualCamera/AnsyncDecoder/sps_pps.c:221-330 | the parser with its early exits leaves the cursor where those bits end |
| DecodeQueue.QueueSafety | VirtualCamera/AnsyncDecoder/AnsyncDecoder.c:221-242 | in every interleaving: decoded frames are a prefix of accepted ones, in order and byte for byte what was passed in; 0 <= published - cleared <= n; a drop happens only with all n slots unread; no access leaves its allocation; the counters count the frames |
| DecodeQueue.FramesAccounted | VirtualCamera/AnsyncDecoder/AnsyncDecoder.c:414-471 | no frame gets lost: in every interleaving the frames of the calls that went in, read off the actions, are in order the merge of those published and those dropped, with the one in flight behind them |
| DecodeQueue.RoomAccepts | VirtualCamera/AnsyncDecoder/AnsyncDecoder.c:414-471 | in every reachable state with fewer than n frames waiting, a call with video or audio is taken: nine producer steps accept the frame as it was passed in, drop nothing and count it |
| DecodeQueue.OthersPublish | VirtualCamera/AnsyncDecoder/AnsyncDecoder.c:447-470 | a call of any other media type publishes the slot as it stands and counts it |
| DecodeQueue.FullRingDrops | VirtualCamera/AnsyncDecoder/AnsyncDecoder.c:418-424 | while the ring is full and stays so a call waits twenty times and then gives up, with nothing changed but the drop |
| DecodeQueue.BufferReused | VirtualCamera/AnsyncDecoder/AnsyncDecoder.c:430-440 | a buffer that is large enough is used again; one that is too small is freed, and the new one has the size of the frame and, with video, of the parameter sets and 256 bytes more |
| DecodeQueue.RunningExactly | VirtualCamera/AnsyncDecoder/AnsyncDecoder.c:221-242 | running is set exactly while the thread is in its loop |
| DecodeQueue.NewDecoderRuns | VirtualCamera/AnsyncDecoder/AnsyncDecoder.c:221-242 | a new decoder whose thread has got to its first step runs until it is destroyed |
| DecodeQueue.QuitStops | VirtualCamera/AnsyncDecoder/AnsyncDecoder.c:373-376 | once quit is set the thread ends after at most one more frame, and clears running |
| DecodeQueue.UnreadUntouched | VirtualCamera/AnsyncDecoder/AnsyncDecoder.c:414-471 | in every reachable state a producer step changes neither an unread slot nor its bytes |
| DecodeQueue.UnreadInside | VirtualCamera/AnsyncDecoder/AnsyncDecoder.c:426-465 | in every reachable state an unread slot has data + len inside an allocation of its own, video with 256 bytes to spare |
| DecodeQueue.AccessesInside | VirtualCamera/AnsyncDecoder/AnsyncDecoder.c:226-465 | in every reachable state the next access stays inside a live allocation: what the producer frees and copies to, the byte at which the consumer looks first, and the bytes it decodes, video with 256 more behind them |
| DecodeQueue.AllGetDecoded | VirtualCamera/AnsyncDecoder/AnsyncDecoder.c:226-240 | nothing accepted is stuck: unless quit is set the consumer alone gets to decode all of it |
| DecodeQueue.RunKeeps | VirtualCamera/AnsyncDecoder/AnsyncDecoder.c:221-471 | the invariant holds over every run from any state in which it holds |
| DecodeQueue.ApplyKeeps | VirtualCamera/AnsyncDecoder/AnsyncDecoder.c:221-471 | every step of producer, consumer, caller and destroyer keeps the invariant |
| DecodeQueue.FullWhenBlocked | VirtualCamera/AnsyncDecoder/AnsyncDecoder.c:418-424 | if the slot to write is unread then all are |
| DecodeQueue.DropKeeps | VirtualCamera/AnsyncDecoder/AnsyncDecoder.c:423-424 | dropping a frame |
| DecodeQueue.FreeKeeps | VirtualCamera/AnsyncDecoder/AnsyncDecoder.c:430-435 | freeing a buffer that is too small disturbs no unread frame and leaks nothing |
| DecodeQueue.AllocKeeps | VirtualCamera/AnsyncDecoder/AnsyncDecoder.c:437-440 | a new allocation belongs to one slot only |
| DecodeQueue.FieldsKeeps | VirtualCamera/AnsyncDecoder/AnsyncDecoder.c:441-444 | after the fields are written the frame fits its allocation |
| DecodeQueue.CopyKeeps | VirtualCamera/AnsyncDecoder/AnsyncDecoder.c:445-445 | after the copy the slot holds the frame and nothing else has changed |
| DecodeQueue.PublishKeeps | VirtualCamera/AnsyncDecoder/AnsyncDecoder.c:468-468 | setting need_read appends the frame to the window of unread slots |
| DecodeQueue.DecodeKeeps | VirtualCamera/AnsyncDecoder/AnsyncDecoder.c:230-234 | the consumer sees the oldest accepted frame, inside its allocation |
| DecodeQueue.ClearKeeps | VirtualCamera/AnsyncDecoder/AnsyncDecoder.c:236-236 | clearing need_read hands the slot back while the consumer still stands on it |
| DecodeQueue.OwnedThroughout | VirtualCamera/AnsyncDecoder/AnsyncDecoder.c:389-401 | after any run the slots own all the allocations, each one slot, so destruction may follow |
| DecodeQueue.Destroy | VirtualCamera/AnsyncDecoder/AnsyncDecoder.c:389-401 | frees every allocation and none twice |
| CircularLists.CircularList.constructor | VirtualCamera/Common/circular_list.c:5-34 | nodes form a ring and the pool is zeroed and cut into one slice a node |
| CircularLists.CircularList.Link | VirtualCamera/Common/circular_list.c:16-30 | the loop writes all links and slices |
| CircularLists.CircularList.Reset | VirtualCamera/Common/circular_list.c:40-42 | clears the pool and leaves the links alone |
| CircularLists.LinksInverse | VirtualCamera/Common/circular_list.c:17-27 | next and prev are inverse |
| CircularLists.OneCycle | VirtualCamera/Common/circular_list.c:17-27 | from any node next meets every node exactly once before it returns |
| CircularLists.SlicesDisjoint | VirtualCamera/Common/circular_list.c:15-25 | slices lie inside the pool and share no byte |
| ThreadStart.StartSafety | VirtualCamera/jthread/jthread.cpp:47-115 | for any number of callers and any interleaving: at most one live body, named by threadid, with running set; the polling loop cannot miss running; Start returned 0 only after its own thread called ThreadStarted |
| ThreadStart.RefusedExactlyWhileRunning | VirtualCamera/jthread/jthread.cpp:71-79 | Start refuses with ERR_JTHREAD_ALREADYRUNNING exactly when a thread that has set running has not cleared it, and otherwise every earlier thread has ended |
| ThreadStart.StartReturns | VirtualCamera/jthread/jthread.cpp:71-115 | in every run, whatever happens in between: a call that found a live thread returns -5, one whose creation failed returns -2, one that created a thread returns 0, and no call returns anything else |
| ThreadStart.ReturnValue | VirtualCamera/jthread/jthread.cpp:144-155 | with no body live GetReturnValue gives the result of the last body that returned |
| ThreadStart.LastResult | VirtualCamera/jthread/jthread.cpp:144-155 | GetReturnValue gives the result in the actions of the body that returned last, and NULL while one is live or before the first |
| ThreadStart.NoDeadlock | VirtualCamera/jthread/jthread.cpp:71-114 | from every reachable state every call can still return and every thread end |
| ThreadStart.CanFinish | VirtualCamera/jthread/jthread.cpp:71-114 | a schedule that gets there, with a measure that goes down |
| ThreadStart.SomebodyCanStep | VirtualCamera/jthread/jthread.cpp:71-114 | in every state that is not quiet somebody can make progress other than by polling in vain |
| ThreadStart.RunKeeps | VirtualCamera/jthread/jthread.cpp:47-203 | the invariant holds over every run |
| ThreadStart.StartStepKeeps | VirtualCamera/jthread/jthread.cpp:71-114 | every step of Start keeps it |
| ThreadStart.ThreadStepKeeps | VirtualCamera/jthread/jthread.cpp:175-204 | every step of TheThread and its body keeps it |
| ThreadStart.CreateStepKeeps | VirtualCamera/jthread/jthread.cpp:85-91 | a thread is created only when no other is alive, or creation fails and the lock is given back |
| ThreadStart.LookStepKeeps | VirtualCamera/jthread/jthread.cpp:73-96 | looking at running, before creating and while polling |
| ThreadStart.PassMoveKeeps | VirtualCamera/jthread/jthread.cpp:187-188 | the thread passes the continue mutex only after its creator has seen running |
| Fragments.UnitForUnit | VirtualCamera/VirtualCameraService.cpp:407-440 | units sent whole or as first, middle and last fragments come out unit for unit, whatever the buffer held, of either receiver; Reassembly.SendingsFit adds that a buffer as large as the largest unit is never left |
| Fragments.AfterJunk | VirtualCamera/VirtualCameraService.cpp:407-440 | after any junk prefix the units that follow come out complete; Reassembly.ReceiveAfterJunk says so of the bounded receiver |
| Fragments.PollsAreOneRun | VirtualCamera/VirtualCameraService.cpp:442-464 | how the packets are spread over polls makes no difference |
| Fragments.RunConcat | VirtualCamera/VirtualCameraService.cpp:413-440 | a run over a concatenation is a run after a run |
| Fragments.RunSending | VirtualCamera/VirtualCameraService.cpp:413-440 | one unit, whole or cut, is delivered exactly |
| Fragments.SameUnits | VirtualCamera/jrtplibutil_jni.cpp:386-427 | the receiver that does not reset its length delivers the same units as the one that does if and only if no last fragment arrives while an old unit is still in front of the buffer |
| Fragments.StrayRepeats | VirtualCamera/jrtplibutil_jni.cpp:386-427 | a unit and then a last fragment without its first one: that receiver delivers the unit twice |
| Fragments.OrderlyEndsClean | VirtualCamera/jrtplibutil_jni.cpp:386-427 | both agree on every stream where no middle or last fragment follows a completed unit without a new first one |
| Fragments.SentArrives | VirtualCamera/JRTPLIB/src/rtpsession.cpp:632-690 | a unit that is cut, or does not look like a fragment, arrives from any buffer |
| Fragments.SentArrivesExactly | VirtualCamera/JRTPLIB/src/rtpsession.cpp:638-690 | from an empty buffer that condition is also necessary |
| Fragments.SendThenReceive | VirtualCamera/JRTPLIB/src/rtpsession.cpp:632-690 | sending and receiving any list of such units gives the list back |
| Reassembly.Transfer | VirtualCamera/JRTPLIB/src/rtpsession.cpp:632-690 | send units, deliver the packets over polls of any sizes: a receiver of either kind whose buffer is as large as the largest unit delivers exactly the units, whatever the buffer held |
| Reassembly.ReceiveAfterJunk | VirtualCamera/VirtualCameraService.cpp:407-445 | after any packets it had room for, a receiver delivers the units that follow, whole or cut, unit for unit |
| Fragments.CutIntoFragments | VirtualCamera/JRTPLIB/src/rtpsession.cpp:640-684 | a long unit goes out as one first, one last and otherwise full middle fragments, whose two header bytes carry type 28 and the byte behind the start code, as section 5.8 of RFC 6184 has it |
| Fragments.CutArrives | VirtualCamera/JRTPLIB/src/rtpsession.cpp:640-684 | the slices of a long unit are put together again, header bytes dropped |
| Fragments.StartCodeSendable | VirtualCamera/JRTPLIB/src/rtpsession.cpp:631-632 | a unit with a start code always meets the condition |
| Reassembly.SendingsFit | VirtualCamera/VirtualCameraService.cpp:414-438 | every stream of units that are no longer than the buffer stays inside it packet by packet, from any state of it |
| Reassembly.SentAllFit | VirtualCamera/JRTPLIB/src/rtpsession.cpp:632-690 | so does everything the sender makes of such units |
| Reassembly.Receiver.Take | VirtualCamera/VirtualCameraService.cpp:414-438 | one packet changes buffer, length and deliveries as the step says |
| Reassembly.Receiver.Poll | VirtualCamera/VirtualCameraService.cpp:407-445 | one poll runs over all packets that have arrived |
| Reassembly.Receiver.PollAll | VirtualCamera/VirtualCameraService.cpp:407-464 | poll after poll is one run over all the packets |
| Reassembly.Receiver.Copy | VirtualCamera/VirtualCameraService.cpp:418-429 | memcpy to an offset: the bytes before stay, the payload follows, the rest stays |
| Reassembly.SendSlices | VirtualCamera/JRTPLIB/src/rtpsession.cpp:640-684 | the loop by step numbers sends exactly the slices |
| Reassembly.SlicePacket | VirtualCamera/JRTPLIB/src/rtpsession.cpp:651-681 | the header bytes and the piece of the step-th of n packets |
| Reassembly.SendPacketAfterSlice | VirtualCamera/JRTPLIB/src/rtpsession.cpp:632-690 | short units go out as they are and long ones in slices |
| Reassembly.SendUnits | VirtualCamera/JRTPLIB/src/rtpsession.cpp:632-690 | a list of units goes out unit after unit |
| Colour.RgbToYuv420 | VirtualCamera/VirtualCameraService.cpp:132-183 | the loop nest with its moving pointers writes the cells of the frame in order |
| Colour.ConvertRow | VirtualCamera/VirtualCameraService.cpp:138-177 | one row |
| Colour.ConvertPixel | VirtualCamera/VirtualCameraService.cpp:143-173 | one pixel: luma always, chroma for the first of each 2x2 block |
| Colour.ConversionPlaces | VirtualCamera/VirtualCameraService.cpp:132-183 | with planes that do not overlap every luma and chroma value stands at its strided cell and no other byte has changed |
| Colour.FrameCellsExactly | VirtualCamera/VirtualCameraService.cpp:138-182 | every cell of the frame is written once and nothing else is |
| Colour.CellIsBT601 | VirtualCamera/VirtualCameraService.cpp:138-177 | every cell of a frame gets what BT.601 makes of its pixel, byte 0 red, 1 green and 2 blue, cut off but for a slack of 0.455 of a level for luma and 0.263 for chroma |
| Colour.LumaIsBT601 | VirtualCamera/VirtualCameraService.cpp:167-167 | luma is 0.299 R + 0.587 G + 0.114 B, cut off and not rounded |
| Colour.ChromaIsBT601 | VirtualCamera/VirtualCameraService.cpp:169-170 | chroma is -0.169 R - 0.331 G + 0.5 B and 0.5 R - 0.419 G - 0.081 B around 128 |
| Colour.LumaOf | VirtualCamera/VirtualCameraService.cpp:167-167 | luma is in 0..255 before it is narrowed |
| Colour.CbOf | VirtualCamera/VirtualCameraService.cpp:169-169 | so is blue chroma |
| Colour.CrOf | VirtualCamera/VirtualCameraService.cpp:170-170 | so is red chroma |
| Colour.GreyStaysGrey | VirtualCamera/VirtualCameraService.cpp:167-170 | a grey pixel keeps its brightness and gets neutral chroma |
| Colour.LumaBetween | VirtualCamera/VirtualCameraService.cpp:167-167 | luma lies between the smallest and the largest component |
| ColourLayouts.Nv21Bijection | VirtualCamera/VirtualCameraService.cpp:297-305 | with even sizes each of the 3WH/2 bytes belongs to exactly one cell and each cell is written once |
| ColourLayouts.Nv21InsideExactly | VirtualCamera/VirtualCameraService.cpp:297-305 | the conversion stays inside the image if and only if both sizes are even, which the code does not check |
| ColourLayouts.Nv21Overruns | VirtualCamera/VirtualCameraService.cpp:297-305 | otherwise the last chroma cell is the witness |
| ColourLayouts.Yv12Fits | VirtualCamera/VirtualCameraService.cpp:318-341 | the three planes are disjoint and inside any buffer that reaches the end of the layout; the code itself takes the buffer as it comes |
| ColourLayouts.Align16 | VirtualCamera/VirtualCameraService.cpp:121-121 | the multiple of 16 next above its argument |
| CopyFrame.CopyFrame | VirtualCamera/VirtualCameraService.cpp:51-78 | the remainder loop and the eightfold loop are one plain copy of H rows if H is a multiple of 8, H + 8 rows otherwise, and none for H <= 0 |
| CopyFrame.Eight | VirtualCamera/VirtualCameraService.cpp:60-77 | one turn of the unrolled loop copies eight rows |
| CopyFrame.CopyRowsAt | VirtualCamera/VirtualCameraService.cpp:55-58 | every byte of the copied rows arrives |
| CopyFrame.CopyRowsFrame | VirtualCamera/VirtualCameraService.cpp:55-58 | every other byte stays |
| CopyFrame.DirectCopyToSurface | VirtualCamera/VirtualCameraService.cpp:80-119 | copies the rows shown and stays inside both images on each path |
| CopyFrame.RowsShownInside | VirtualCamera/VirtualCameraService.cpp:96-98 | the ten rows taken off leave room for the eight too many |
| CopyFrame.WholeRows | VirtualCamera/VirtualCameraService.cpp:87-88 | with equal strides the single memcpy is a copy row by row |
| CameraReports.MirrorAlways | libcameraservice/CameraService.cpp:422-500 | in every run of HAL reports worked off step by step, with clients on any object, torch reports, setTorchMode and reports on other cameras between any two steps: as long as reports on one camera do not overlap, the last status the listener was told is at every moment the camera's status, with a proper history |
| CameraReports.ChargedAlways | libcameraservice/CameraService.cpp:409-419 | in every such run without a report that a torch is on between the first change of its camera's removal and the removal of the torch, only the current uid has an open flashlight note, and only with the torch on |
| CameraReports.OverlapExactly | libcameraservice/CameraService.cpp:409-419 | a second report that makes its change in the middle of a removal breaks the listener's view if and only if it is PRESENT or ENUMERATING |
| CameraReports.StaleCommitExactly | libcameraservice/CameraService.cpp:4293-4313 | so does one that has looked its object up before the erase and makes its change after it |
| CameraReports.LateLightExactly | libcameraservice/CameraService.cpp:605-649 | a torch report in the middle of a removal leaves a note open behind the torch's entry if and only if it says the torch is on and somebody has asked for the torch |
| CameraReports.AskThenLight | libcameraservice/CameraService.cpp:605-649 | in the runs too, whoever asks for a torch that is not on is charged alone once it is reported on |
| CameraReports.ClientOpens | libcameraservice/CameraService.cpp:3291-3398 | a client that opens a present camera and closes it tells NOT_AVAILABLE and PRESENT |
| CameraReports.DeclineEnds | libcameraservice/CameraService.cpp:373-386 | if addStates gives up, a report of a new camera changes nothing |
| CameraReports.ReportWorksOff | libcameraservice/CameraService.cpp:422-500 | the steps of a report with nothing in between do what the method does |
| CameraReports.RunSteady | libcameraservice/CameraService.cpp:422-500 | view, filing and what each report relies on between its steps hold over every run |
| CameraReports.RunLamps | libcameraservice/CameraService.cpp:409-419 | notes, torch entries and what each removal relies on hold over every timely run |
| CameraModel.HistoryGrows | libcameraservice/CameraService.cpp:4376-4416 | the checks in updateStatus are exactly what keeps the history free of repeats and of wrong successors of NOT_PRESENT |
| CameraModel.GoneRun | libcameraservice/CameraService.cpp:3377-3398 | a camera that has gone stays gone, dark and uncharged over any run of opens and closes, even through an object a client still holds, of new uids and of other cameras |
| CameraModel.SettledCharges | libcameraservice/CameraService.cpp:605-649 | a step keeps the notes right unless it drops or resets the entry of a torch whose status is on, which the service can look up before |
| CameraModel.TrackedExactly | libcameraservice/CameraService.cpp:605-649 | when the open notes are exactly those the service's own fields call for they stay so if and only if the step neither drops nor resets a torch that is on and has a uid, nor records the first uid of a torch that is on already |
| CameraModel.LightingCharges | libcameraservice/CameraService.cpp:629-649 | when the torch goes on the uid that asked last is charged, and nobody else |
| CameraModel.AskedIsCharged | libcameraservice/CameraService.cpp:605-649 | whoever asks for a torch that is not on is charged, alone, once the HAL reports it on, and no longer once it is off |
| CameraModel.TorchReported | libcameraservice/CameraService.cpp:605-622 | a tracked torch gets the status the HAL reports, and no other torch changes |
| CameraModel.OpenAndClose | libcameraservice/CameraService.cpp:4313-4348 | opening a camera that is present tells NOT_AVAILABLE, makes its torch not available and charges nobody; closing tells PRESENT and leaves the torch off; other cameras see nothing of it |
| CameraModel.UndisturbedRemoval | libcameraservice/CameraService.cpp:468-493 | whatever clients and other cameras do in between, unless the HAL reports on that camera again, a removal reaches the end with its torch not on, nobody charged and its camera absent |
| CameraModel.LateTorchLeaksNote | libcameraservice/CameraService.cpp:409-419 | a torch report between the halves of a removal leaves the uid charged: a concrete run |
| CameraModel.LatePresentBreaksMirror | libcameraservice/CameraService.cpp:416-419 | a status report there leaves the listener with a camera that is gone: a concrete run |
| CameraStates.CameraService.constructor | libcameraservice/CameraService.cpp:156-160 | an empty book is right |
| CameraStates.CameraService.OnTorchStatusChangedLocked | libcameraservice/CameraService.cpp:605-651 | status, uids and notes change as one torch change says |
| CameraStates.CameraService.OnStatusUpdated | libcameraservice/CameraService.cpp:4313-4348 | torch first, then the listener |
| CameraStates.CameraService.UpdateState | libcameraservice/CameraService.cpp:4376-4416 | sets the status and takes it back on each refusal |
| CameraStates.CameraService.UpdateStatus | libcameraservice/CameraService.cpp:4288-4313 | unknown cameras are ignored |
| CameraStates.CameraService.StartCameraOps | libcameraservice/CameraService.cpp:3291-3294 | a present camera becomes NOT_AVAILABLE, an absent one stays; view and notes stay right |
| CameraStates.CameraService.FinishCameraOps | libcameraservice/CameraService.cpp:3385-3398 | a camera in use becomes PRESENT, any other stays as it is; view and notes stay right |
| CameraStates.CameraService.SetTorchMode | libcameraservice/CameraService.cpp:2061-2162 | each refusal with its error and no effect, otherwise the pending uid is recorded; notes stay right |
| CameraStates.CameraService.AddStates | libcameraservice/CameraService.cpp:392-404 | a new camera starts NOT_PRESENT, and then its torch is off |
| CameraStates.CameraService.Remove | libcameraservice/CameraService.cpp:472-493 | the order of the steps of a removal |
| CameraStates.CameraService.OnDeviceStatusChanged | libcameraservice/CameraService.cpp:422-500 | one report takes the steps the code takes on each branch |
| CameraStates.ReportKeeps | libcameraservice/CameraService.cpp:422-500 | a report that nothing interrupts keeps view and notes right and ends in the reported status, except that an absent camera can only come up |
| AudioModel.CacheIsRight | libcameraservice/CameraService.cpp:2683-2692 | in every run, with each recompute reading the clients one by one while modes change under it, the cache is what AppOps was told last, and with no operation under way it is the or over all active clients |
| AudioModel.RecomputeAlone | libcameraservice/CameraService.cpp:4697-4716 | the steps of an undisturbed recompute pay the caller's debt and store the or |
| AudioModel.ApplyKeeps | libcameraservice/CameraService.cpp:2683-2739 | between the steps of operations a wrong cache, or a recompute that has read an old mode, always has a thread that still owes a recompute |
| AudioModel.OrIgnoresNone | libcameraservice/CameraService.cpp:3095-3095 | a client that starts with NONE does not change the or, so connecting need not recompute |
| AudioModel.AsksExactly | libcameraservice/CameraService.cpp:4697-4716 | with no operation under way AppOps was told last to restrict exactly what the clients on the list have asked for last, both read off the run |
| AudioModel.OrAsks | libcameraservice/CameraService.cpp:4702-4708 | the or asks for one of some bits exactly when an active client does |
| AudioModel.RunKeeps | libcameraservice/CameraService.cpp:2683-2739 | over every run |
| Audio.AudioRestriction.UpdateAudioRestrictionLocked | libcameraservice/CameraService.cpp:4702-4716 | the loop computes the or and AppOps ends up with it |
| Audio.AudioRestriction.RemoveByClient | libcameraservice/CameraService.cpp:2683-2692 | takes the client off however often it is listed and recomputes |
| Audio.AudioRestriction.FinishConnectLocked | libcameraservice/CameraService.cpp:1326-1333 | adds a client without recomputing and stays right, as one step of the machine |
| Audio.AudioRestriction.SetAudioRestriction | libcameraservice/CameraService.cpp:3217-3224 | sets the mode and recomputes, as the steps of the machine with nothing in between |
| Audio.AudioRestriction.Disconnect | libcameraservice/CameraService.cpp:3146-3153 | the first disconnect removes and recomputes, as the steps of the machine with nothing in between; a second one changes nothing |
| Audio.AudioRestriction.RemoveAndDisconnect | libcameraservice/CameraService.cpp:474-491 | unplugging removes first and recomputes in the disconnect, as the steps of the machine with nothing in between |
| AllowedUsers.UsersAllowed | libcameraservice/CameraService.cpp:1286-1298 | in every reachable state outside a user switch an active ordinary client belongs to an allowed user, or a disconnect of its own still owes its removal |
| AllowedUsers.UsersAllowedAtRest | libcameraservice/CameraService.cpp:2767-2841 | so with no switch and no disconnect under way all of them belong to allowed users |
| AllowedUsers.CheckAdopts | libcameraservice/CameraService.cpp:2772-2790 | the check makes exactly the listed users allowed; with a negative id it leaves everything as it was |
| AllowedUsers.SwitchGoesThrough | libcameraservice/CameraService.cpp:2767-2841 | a switch to other users that nothing gets in the way of allows exactly the listed users, marks and removes every unmarked client of anybody else, and leaves all other clients, the lock and the condition as they were |
| AllowedUsers.SwitchIgnored | libcameraservice/CameraService.cpp:2772-2786 | a list with a negative id, or with the users who are allowed already, changes nothing |
| AllowedUsers.LeaversGo | libcameraservice/CameraService.cpp:3146-3153 | and from every reachable state outside a switch with the lock free the removals still owed lead there |
| AllowedUsers.PassedByExactly | libcameraservice/CameraService.cpp:2797-2835 | a switch passes a client it has found by if and only if that client's own disconnect has begun |
| AllowedUsers.ClientLingers | libcameraservice/CameraService.cpp:3146-3153 | such a client can outlive the switch, because a disconnect that finds it marked returns at once: a concrete run, at whose end its removal is still owed |
| AllowedUsers.SwitchSparesAllowed | libcameraservice/CameraService.cpp:2797-2835 | a user switch neither disconnects nor removes a client whose user is allowed |
| AllowedUsers.AllowedConnects | libcameraservice/CameraService.cpp:1766-1950 | from every state with lock and condition free a connect that nothing gets in the way of adds the client, for every allowed user and every client that is not ordinary |
| AllowedUsers.OthersRefused | libcameraservice/CameraService.cpp:1286-1298 | a connect for an ordinary user who is not allowed changes nothing |
| AllowedUsers.LockKeepsOut | libcameraservice/CameraService.cpp:2683-2692 | while a thread is in the lock nobody else changes the allowed users or the list, or takes the lock |
| AllowedUsers.TakenOff | libcameraservice/CameraService.cpp:2694-2739 | unplugging and binder death take exactly their client off the list |
| AllowedUsers.OneAtATime | libcameraservice/CameraService.cpp:1530-1553 | between check and insertion, and during a switch, a thread has the connect condition to itself although the lock is given up |
| AllowedUsers.RunKeeps | libcameraservice/CameraService.cpp:2767-2841 | the invariant holds over every run |
| AllowedUsers.ThreadKeeps | libcameraservice/CameraService.cpp:1766-1950 | every step of connecting and switching keeps it |

## Left out

- Values on which C leaves the result open: `1 << 32` and `1 << 31` in `bs_read_ue` are taken as
  wrap-around to 32 bits, `>>` of a negative number in the colour formulas as rounding down, and other
  signed overflow does not occur in the model.
- BitStreams.BitStream.WriteUe: only for a code word that `bs_write` can shift in, at most 31 bits and the free bits of the byte in progress; a longer one makes it shift by 32 or more, which C leaves open. The se and te writers have the same bound.
- Golomb.SizeUe: only for val + 1 < 2^24, where the source's table index stays inside the table.
- BitStreams.BitStream.Show: reads four bytes whatever the end of the buffer is, so those must exist.
- Sps.DecodeVui: the VUI fields are not kept, only where the parser leaves the cursor. The code does not parse HRD parameters, so only a VUI without them is inverted.
- StandardScaling.MatricesOf444Exactly: for 4:4:4, lists behind the first 8x8 list with deltas other than 0 and 1 are left open, here and in SpsLayout.SpsInverseExactly: the decoder is then out of step with the lists, and what it makes of each depends on the bits of all that follow.
- Emulation prevention bytes: the parser does not strip them, so its input is taken as plain RBSP.
- `h264_pps_read`, `main1`, `main2`: incomplete or dead.
- DecodeQueue.QueueSafety: decoding records the frame; FFmpeg, and its skipping of empty frames, are not modelled. A frame of another media type than 1 and 2 publishes whatever the slot held, as in the code, so only for those two is the content the one passed in.
- DecodeQueue.Destroy: allocation is taken to succeed, and the producer to have stopped before the decoder is destroyed.
- The queue, the handshake, the camera book between threads and the allowed users are state machines
  on values, because their point is interleaving; where one thread runs alone (the camera book, the
  audio cache, the receivers, the copies, the bit stream) the model is imperative as well.
- Weak memory effects and real time; `usleep` and `nanosleep` are arbitrary waits.
- ThreadStart.StartSafety: no `Kill`, bodies call `ThreadStarted` once before they return, and the mutexes are initialised already (`JMutex::Init` and the error returns of an uninitialised mutex are not modelled).
- CircularLists.CircularList.constructor: sizes stay below 2^31, where the source counts in `int`.
- Reassembly.Receiver.Take: the buffer must be large enough and the packet long enough for its headers, which the source does not check; Reassembly.SendingsFit and Reassembly.SentAllFit give the streams for which the first holds.
- Reassembly.SendPacketAfterSlice: the packets are payloads; marker bits, timestamps, sending errors and the network are not modelled. One source, packets in order.
- Sharing one reassembly buffer between audio and video in `jrtplibutil_jni.cpp`.
- Colour.RgbToYuv420: the alpha byte is skipped, as the source skips its product with it; choosing a format, locking and queueing buffers are not modelled.
- CopyFrame.DirectCopyToSurface: the window exists and can be locked; otherwise the source returns -1.
- CameraReports.MirrorAlways: reports by the HAL on one camera do not overlap; CameraReports.OverlapExactly and CameraReports.StaleCommitExactly say what one late change does. One fixed public listener, present from the start; camera kinds, physical cameras and logical cameras are not modelled. Each critical section is one step, so an addition is two, the state and then the torch, and so is a status update, looking the object up and changing it; a status change with its torch change and its notice is one, as `updateStatus` and `onStatusUpdated` run under the lock of the status.
- CameraStates.CameraService.AddStates: the provider answers; `addStates` giving up before it has added anything is a step of the runs in CameraReports, not of this method.
- CameraStates.CameraService.SetTorchMode: permissions enter as a flag, and the links to a client's death are not modelled.
- AudioModel.CacheIsRight: client objects are named by numbers and each enters the list once.
- AllowedUsers.UsersAllowed: clients from the own process or the HIDL interface are not ordinary. Which clients a connect evicts is left open, as clients may go away at any moment. The exits of `handleEvictionsLocked` that leave the lock free after a timeout, and offline clients, are not modelled.
- `ClientManager`, `CameraProviderManager`, subclass `disconnect` bodies, HDMI hooks and sub-device
  counters, binder parcels, shell commands, dumps and logging.
