# Verification of the playback pipeline and the common.h codecs

Two parts of the repository are modelled in Dafny, and what they do is proved, both
where it is what one would expect and where it is not.

**The player** (`src/ffmpeg_player.cpp`). A reader thread, an audio thread, a video
thread and the main thread share two bounded queues, two mutexes, two condition
variables, an atomic `quit` and an atomic byte counter. `PlayerModel.dfy` is the
transition system: one action is one atomic statement of one thread, of the audio
device, or a spurious wake-up, and any interleaving is a run. Evaluating a wait
predicate and going to sleep are separate actions, as are the size check and the push,
the store of `quit` and its notifications, and the two reads of the audio clock.

- `PlayerTime.dfy` says what the conversions between bytes, samples and seconds come to.
- `PlayerInvariant.dfy` proves the invariant, `PlayerSafety.dfy` what holds in every
  reachable state.
- `PlayerShutdown.dfy` is about what happens after `quit`.
- `PlayerStall.dfy` says which states cannot get on, `PlayerProgress.dfy` that all
  others do on every fair schedule, `PlayerFile.dfy` and `PlayerFileStall.dfy` which
  files can lead to such a state.
- `PlayerEnd.dfy` says that playback ends, and that fair schedules exist;
  `PlayerExamples.dfy` has two runs that go wrong.
- `PlayerObject.dfy` has the shared objects and the body of each thread with the loops,
  breaks and lock scopes of the source. Each body goes through turns in which first the
  other threads and the device do whatever they try and can do, and then it does one
  statement unless it is blocked. It is proved to take the shared objects exactly where
  these turns lead in the model; `PlayerTurns.dfy` defines them and proves that they are
  a run, `PlayerRely.dfy` is what a thread relies on meanwhile.

Calls out of the program return what an action's `Choice` says, within the contract of
the callee: the demuxer yields any packet or the end of the file; the decoder follows
the send/receive contract (a send is refused only while frames are pending; without
errors, delivered and pending frames together are the decoding of the accepted packets);
the device takes or refuses any bytes offered to it and plays any part of its queue at
any time; a finite number of user events arrives. What the resampler returns is any
function of the frames it has been given, cut to what fits the buffer, or an error.

**The codecs and arithmetic** (`include/libavutil/common.h`). `Bits.dfy` defines the C
operators on words; `Utf8.dfy` and `Utf16.dfy` have the readers and writers with the
shifts, masks, loops and wrap-around of the macros, proved against the arithmetic
definitions in section 2 of RFC 2279 and sections 2.1 and 2.2 of RFC 2781;
`Utf8Laws.dfy` and `Utf16Laws.dfy` have the laws of streams. `Popcount.dfy` is the
parallel bit count, `Clip.dfy` and `Saturate.dfy` the clips and saturating operations,
`Rounding.dfy` the rounding macros, `IntMath.dfy` the logarithms they use.

## Results that differ from what one might expect of the code

- Not every shutdown reaches the joins. `quit` is stored and notified without the
  mutexes, so a consumer that evaluated its predicate before the store can go to sleep
  after the last notification. `PlayerShutdown.ShutdownCanHang` is such a run;
  `PlayerShutdown.ShutdownExact` says that a complete run fails to join exactly when it
  has such a block and nothing wakes the sleeper, and
  `PlayerShutdown.ShutdownTerminates` that no run goes on for ever.
- Playback can stall: the reader waits for room in the video queue while the video
  thread waits for a clock that only audio packets not yet read could move.
  `PlayerStall.StallExact` and `PlayerStall.StallShape` say exactly which states these
  are, `PlayerFileStall.FileStallsExact` exactly which files have them: those with a
  frame that is more than 0.02 s ahead of all the sound that comes before the 200th
  video packet after its own. `PlayerExamples.VideoOnlyStalls` is such a file.
- The clock is not the sound played once `SDL_QueueAudio` has failed: its result is
  ignored and the bytes are counted all the same. `PlayerSafety.ClockReadBounds` and
  `PlayerSafety.AvSync` carry the bytes refused; with none refused they bound the clock
  by the bytes played. `PlayerSafety.QuietReadExact` is the exact condition,
  `PlayerExamples.LoudRunsAhead` a state in which the clock is wrong.
- The consumers stop on `quit`, which the reader sets at the end of the file; packets
  still queued then are never decoded and not freed
  (`PlayerSafety.LeftoversAreTheTail`).
- `RSHIFT(a, 0)` is not `a` but `a - 1` for a that is not positive
  (`Rounding.RShiftExact`).
- `av_sat_dadd32` and `av_sat_dsub32` differ from saturating the exact result once;
  `Clip.TwoStagesMatter` says for which arguments.
- The comments at lines 456 and 518-519 of common.h speak of up to 7 bytes; the code
  reads and, for values below 2^31, writes at most 6. The code is followed.

## Model

| member | source | states |
|---|---|---|
| PlayerObject.Player.constructor | src/ffmpeg_player.cpp:200-206 | the shared objects can be put into any reachable state, from which the turns of any one thread are watched |
| PlayerObject.Player.Others | src/ffmpeg_player.cpp:338-359 | a turn begins with exactly what the others do in it, which leaves the thread its place and what only it writes; a thread may let a turn go by unused only if it is blocked, and is cut off only at the horizon |
| PlayerObject.Player.OthersPart | src/ffmpeg_player.cpp:338-359 | between two statements the shared objects are what the enabled actions of the others make of the state the turn began in |
| PlayerObject.Player.ReadFrame | src/ffmpeg_player.cpp:226-230 | when av_read_frame is called both queues have room, though neither mutex is held any more |
| PlayerObject.Player.Push | src/ffmpeg_player.cpp:231-238 | a push never takes its queue beyond 200, though the check was in another critical section |
| PlayerObject.Player.ReadThread | src/ffmpeg_player.cpp:208-247 | the loop with its continue, breaks and lock scopes takes the shared objects exactly where the turns lead, one statement of the reader in each turn in which it can act, whatever the others do; it is cut off only at the horizon, and if it returns, quit is stored |
| PlayerObject.Player.LeavesOrPops | src/ffmpeg_player.cpp:256-258 | if the queue is empty when its turn comes, quit is set and the thread leaves; otherwise exactly the front of that queue is taken |
| PlayerObject.Player.TakesPacket | src/ffmpeg_player.cpp:253-259 | the scope of the lock with the wait in it ends with a packet or, only on quit, without |
| PlayerObject.Player.Converts | src/ffmpeg_player.cpp:263-268 | the size of a chunk is that of the frames so far and fits the buffer |
| PlayerObject.Player.Accounts | src/ffmpeg_player.cpp:270-271 | after the count the counter is all bytes played, queued and refused |
| PlayerObject.Player.AudioThread | src/ffmpeg_player.cpp:250-278 | the body with its nested loops takes the shared objects exactly where the turns of its thread lead, too; it returns only on quit |
| PlayerObject.Player.GetAudioClock | src/ffmpeg_player.cpp:281-290 | the two reads give a value within the bounds set by the bytes offered at each |
| PlayerObject.Player.ShowsFrame | src/ffmpeg_player.cpp:308-328 | the wait loop ends with the frame shown once, not ahead of the clock last read unless quit was |
| PlayerObject.Player.VideoThread | src/ffmpeg_player.cpp:293-335 | the body with its nested loops takes the shared objects exactly where the turns of its thread lead, too; it returns only on quit |
| PlayerObject.Player.MainThread | src/ffmpeg_player.cpp:343-359 | so do the event loop and the joins; past them all three threads have returned |
| PlayerTurns.InterferesSafely | src/ffmpeg_player.cpp:338-359 | what the others do in a turn leads to a reachable state and disturbs nothing a thread relies on |
| PlayerTurns.StuckExact | src/ffmpeg_player.cpp:208-359 | a turn has a statement of the thread if and only if the thread has any action at all |
| PlayerTurns.TurnsAreARun | src/ffmpeg_player.cpp:208-359 | turns are a legal interleaving in the model, in which the thread's actions are its statements, in order |
| PlayerRely.OthersLeave | src/ffmpeg_player.cpp:208-359 | no action of another thread, of the device or spurious wake-up disturbs what a thread relies on |
| PlayerTime.ClockOfSampleFrames | src/ffmpeg_player.cpp:283-288 | the bytes of n sample frames, two for each channel, are n / freq seconds on the clock |
| PlayerTime.PtsExact | src/ffmpeg_player.cpp:308-311 | a presentation time is its number of units of the time base, both parts of it; a frame without one is due at once |
| PlayerTime.AheadExact | src/ffmpeg_player.cpp:308-319 | the wait test, in integers: the presentation time exceeds the clock by more than a fiftieth of a second |
| PlayerTime.NoPtsNoWait | src/ffmpeg_player.cpp:308-316 | a frame without a presentation time never waits for a clock that is not negative |
| PlayerTime.DataSizeIsLength | src/ffmpeg_player.cpp:263-268 | the size of a converted frame is the length of its interleaved 16-bit samples |
| PlayerTime.DataSizeIsDuration | src/ffmpeg_player.cpp:263-288 | and played, it moves the clock by the duration of its samples |
| PlayerTime.ErrorIsSilent | src/ffmpeg_player.cpp:268-269 | after a conversion error nothing is offered to the device |
| PlayerTime.CutToBuffer | src/ffmpeg_player.cpp:263-268 | what does not fit the 192000 bytes is cut to whole sample frames that do |
| PlayerTime.SoundIsDuration | src/ffmpeg_player.cpp:263-288 | all sound offered and played, the clock shows the duration of all samples converted |
| PlayerInvariant.Step | src/ffmpeg_player.cpp:208-359 | every action of every thread, of the device and every spurious wake-up keeps the invariant on locks, queues, packets, decoders, clock and screen |
| PlayerSafety.ReachableInv | src/ffmpeg_player.cpp:200-359 | the invariant holds after every run |
| PlayerSafety.Backpressure | src/ffmpeg_player.cpp:200-238 | in every reachable state each queue has at most 200 packets and both together at most 399, though check and push are separate critical sections |
| PlayerSafety.PacketsConserved | src/ffmpeg_player.cpp:226-332 | every demuxed packet is in exactly one hand or queue or was freed exactly once; nothing else is freed and nothing in use has been freed |
| PlayerSafety.StreamOrder | src/ffmpeg_player.cpp:231-238 | freed, held, queued and just fetched packets of a stream, in this order, are the demuxed packets of that stream |
| PlayerSafety.JoinedThreads | src/ffmpeg_player.cpp:356-359 | past the joins all three threads have returned and quit is set |
| PlayerSafety.LeftoversAfterJoins | src/ffmpeg_player.cpp:356-359 | after the joins the packets not freed are exactly the two queues' contents, at most 399 |
| PlayerSafety.LeftoversAreTheTail | src/ffmpeg_player.cpp:250-258 | what is left of a stream is its tail; all before it was freed in order |
| PlayerSafety.NoLostPush | src/ffmpeg_player.cpp:231-259 | a consumer asleep on a non-empty queue is about to be notified by the reader holding its mutex; no consumer pops an empty queue or leaves its wait without packet or quit |
| PlayerSafety.LockChain | src/ffmpeg_player.cpp:212-223 | the mutex the reader waits for is held by that queue's consumer, which can step; the mutex a consumer waits for is held by the reader, which can step or waits for the video mutex, whose consumer can |
| PlayerSafety.ClockReadBounds | src/ffmpeg_player.cpp:269-290 | whatever happens between the two reads, the clock's byte value is at least the bytes played and refused at the first read minus the chunk in flight (at most 192000), at most the bytes played then, those taken meanwhile and those ever refused, and exactly those played and refused when nothing is in flight or offered meanwhile |
| PlayerSafety.QuietReadExact | src/ffmpeg_player.cpp:269-290 | when nothing is in flight or offered during the read, the clock is the bytes played if and only if none was ever refused |
| PlayerSafety.AvSync | src/ffmpeg_player.cpp:269-319 | every frame shown other than by quit is at most 0.02 s ahead of the bytes played when its last clock read began plus those taken during that read plus those ever refused; for a frame with a presentation time also in integers |
| PlayerSafety.DeliversSequentialDecode | src/ffmpeg_player.cpp:257-274 | without decoder errors no send is ever refused and the frames received are a prefix of decoding the stream's demuxed packets in sequence |
| PlayerSafety.ReceivesAccepted | src/ffmpeg_player.cpp:261-262 | frames are received only when the packet in hand was the last one accepted |
| PlayerSafety.ShowsSequentialDecode | src/ffmpeg_player.cpp:300-331 | the frames on the screen are a prefix of that decode, at most one behind what was received |
| PlayerShutdown.AtMostOneMore | src/ffmpeg_player.cpp:209-227 | once quit is set it stays, and over any further run the reader fetches at most one packet and each consumer pops at most one |
| PlayerShutdown.StepLowersRank | src/ffmpeg_player.cpp:244-359 | after quit every action lowers a lexicographic rank |
| PlayerShutdown.ShutdownTerminates | src/ffmpeg_player.cpp:244-359 | no infinite behaviour starts with quit set, under any scheduling |
| PlayerShutdown.NoInfiniteShutdown | src/ffmpeg_player.cpp:244-359 | an infinite behaviour after quit contradicts the ranking |
| PlayerShutdown.ShutdownOutcome | src/ffmpeg_player.cpp:344-359 | where a run ends, main is past its joins if and only if no consumer went to sleep with no notification for it under way |
| PlayerShutdown.LateAtTheEnd | src/ffmpeg_player.cpp:254-301 | over any run a consumer ends as such a sleeper if and only if it blocked that late in the run, or was one before, and nothing has woken it |
| PlayerShutdown.UnderWayIsIssued | src/ffmpeg_player.cpp:244-348 | a notification under way is issued in every complete run |
| PlayerShutdown.NoneComes | src/ffmpeg_player.cpp:244-348 | and when none is under way none comes, unless there is another event to quit |
| PlayerShutdown.DelaysWhenIdle | src/ffmpeg_player.cpp:345-353 | main goes to its delay only when no event is left or quit is stored |
| PlayerShutdown.QuitEventIsObeyed | src/ffmpeg_player.cpp:346-349 | after an event to quit main's next statement stores quit, for good |
| PlayerShutdown.ShutdownExact | src/ffmpeg_player.cpp:244-359 | a complete run fails to pass the joins if and only if in it a consumer blocked with no notification for it under way and slept on |
| PlayerShutdown.ShutdownCanHang | src/ffmpeg_player.cpp:244-255 | the reachable state in which main waits for a sleeping audio thread for ever |
| PlayerStall.CheckExact | src/ffmpeg_player.cpp:216-224 | with fewer than 200 packets in each queue the reader goes on to a fetch, otherwise it sleeps |
| PlayerStall.StallShape | src/ffmpeg_player.cpp:216-319 | a stall has video queue exactly 200, audio queue empty, device drained, and a video frame beyond the clock plus 0.02 s |
| PlayerStall.StallInterleaving | src/ffmpeg_player.cpp:216-238 | at a stall all audio read so far has been used up and exactly 200 video packets follow that of the frame waited for |
| PlayerStall.StalledForever | src/ffmpeg_player.cpp:209-319 | from a stall no run without quit ever does anything but poll |
| PlayerStall.ProgressComes | src/ffmpeg_player.cpp:209-319 | from any other state before quit some run makes progress, whatever the file has next |
| PlayerStall.StallExact | src/ffmpeg_player.cpp:209-319 | a reachable state before quit is a stall if and only if no run makes progress |
| PlayerProgress.OnlyStallsPoll | src/ffmpeg_player.cpp:209-319 | a fair behaviour that only polls from some point on is stalled at that point |
| PlayerProgress.FairProgress | src/ffmpeg_player.cpp:209-319 | on every fair schedule progress comes from every state that is not stalled, unless quit is stored, whatever the callees answer |
| PlayerProgress.FairProgressExact | src/ffmpeg_player.cpp:209-319 | on a fair schedule on which quit is not stored progress comes if and only if the state is not stalled |
| PlayerFile.StallPlace | src/ffmpeg_player.cpp:216-319 | at a stall the clock is the sound of all audio packets read, and the frame held, of the video packet with exactly 200 behind it, is beyond that plus 0.02 s |
| PlayerFile.NeverStalls | src/ffmpeg_player.cpp:216-319 | a file no part of which ends at such a place never stalls: progress is possible from every reachable state before quit |
| PlayerFile.PlaysOn | src/ffmpeg_player.cpp:216-319 | and on a fair schedule it comes |
| PlayerEnd.PlaysToTheEnd | src/ffmpeg_player.cpp:208-359 | a file with no such place is played, on every fair schedule without decoder errors, until its end or the user stores quit |
| PlayerEnd.PlaybackEnds | src/ffmpeg_player.cpp:208-359 | and then comes to rest with the reader gone, and with main past its joins if and only if no consumer slept after its last notification |
| PlayerEnd.FairPlayExists | src/ffmpeg_player.cpp:208-359 | from every reachable state in which quit is stored or an event is still to come there is a fair schedule |
| PlayerFileStall.RunsIntoStall | src/ffmpeg_player.cpp:216-319 | a file with such a place, for whichever frame of whichever video packet, has a schedule that ends in a stall |
| PlayerFileStall.FileStallsExact | src/ffmpeg_player.cpp:216-319 | a file has such a place if and only if a stall is reachable while playing it |
| PlayerExamples.VideoOnlyStalls | src/ffmpeg_player.cpp:216-319 | 201 video packets whose first frame is at one second, without sound, stall the player |
| PlayerExamples.ClockRunsAhead | src/ffmpeg_player.cpp:269-290 | if the first sound is refused, the first picture reads a clock of the bytes played and refused, when none has been played |
| PlayerExamples.LoudRunsAhead | src/ffmpeg_player.cpp:269-290 | a player for which this happens |
| IntMath.Log2TabBounds | src_ffmpeg/libavutil/log2_tab.c:23-32 | the table holds the position of the highest bit of each byte |
| IntMath.Log2 | src_ffmpeg/libavutil/intmath.h:51-65 | the n with 2^n <= v < 2^(n+1), and 0 for 0 |
| IntMath.CeilLog2 | include/libavutil/common.h:417-420 | the least n with x <= 2^n |
| Utf8.PutUtf8 | include/libavutil/common.h:522-540 | the bytes written are those of the table in RFC 2279, for every value below 2^31 |
| Utf8.GetUtf8 | include/libavutil/common.h:469-483 | the loop accepts exactly a first octet followed by the number of further octets it announces, and returns the number their value bits spell |
| Utf8Laws.EncodeTable | include/libavutil/common.h:522-540 | the octets of every value, row by row of the table |
| Utf8Laws.RoundTripAt | include/libavutil/common.h:469-540 | reading at a written value gives the value and stops behind its last byte, whatever follows |
| Utf8Laws.StreamRoundTrip | include/libavutil/common.h:469-540 | every sequence of values below 2^31 survives writing and reading as a stream |
| Utf8Laws.PrefixFree | include/libavutil/common.h:522-540 | no encoding begins with another one |
| Utf8Laws.EncodeStream | include/libavutil/common.h:522-540 | the writer run over a sequence gives the concatenated encodings |
| Utf8Laws.DecodeStream | include/libavutil/common.h:469-483 | the reader run over a buffer gives the stream's values, or fails where it would |
| Utf8Laws.IllFormedFails | include/libavutil/common.h:469-483 | octets that are accepted nowhere make the stream fail, whatever was read before |
| Utf8Laws.ShortestForm | include/libavutil/common.h:473-538 | re-encoding what was accepted is never longer, and byte-identical if and only if the input was as short |
| Utf16.PutUtf16 | include/libavutil/common.h:556-568 | the units written are those of RFC 2781, and for larger words their truncation to 16 bits |
| Utf16.GetUtf16 | include/libavutil/common.h:494-504 | a unit outside the surrogates, or a high and a low surrogate, are read as RFC 2781 says; all else is refused |
| Utf16Laws.RoundTrip16Exact | include/libavutil/common.h:494-568 | of all 32-bit values exactly the scalar values come back |
| Utf16Laws.SingleUnits | include/libavutil/common.h:494-561 | a value below 0x10000 is written as itself, surrogates too, and read back only if it is none |
| Utf16Laws.SurrogatePairs | include/libavutil/common.h:556-568 | a value above is written as a high and a low surrogate that spell it |
| Utf16Laws.StreamRoundTrip16 | include/libavutil/common.h:494-568 | every sequence of scalar values survives writing and reading |
| Utf16Laws.Reencode16 | include/libavutil/common.h:494-568 | writing what was read gives the same units back |
| Utf16Laws.ShortestStream | include/libavutil/common.h:469-540 | a UTF-8 stream written again is never longer, and the same bytes if and only if it is as long |
| Utf16Laws.AcceptedInRange | include/libavutil/common.h:469-483 | every value accepted from UTF-8 is below 2^31 |
| Utf16Laws.TranscodeRoundTrip | include/libavutil/common.h:469-568 | UTF-8 to UTF-16 to UTF-8 keeps the values, and the bytes if and only if they were in shortest form |
| Popcount.CountsOf2 | include/libavutil/common.h:429-429 | after the first step each 2-bit field holds the count of its bits, with no borrow, for words of any width |
| Popcount.CountsOf4 | include/libavutil/common.h:430-430 | after the second step each 4-bit field does |
| Popcount.CountsOf8 | include/libavutil/common.h:431-431 | after the third step each byte does, though the sum is masked only afterwards |
| Popcount.AddBytes | include/libavutil/common.h:432-433 | adding the bytes wraps nowhere and leaves the total in the low six bits |
| Popcount.AvPopcount | include/libavutil/common.h:427-434 | the five assignments give the number of ones in every 32-bit word |
| Popcount.AvPopcount64 | include/libavutil/common.h:441-444 | the number of ones in every 64-bit word |
| Popcount.AvParity | include/libavutil/common.h:446-449 | whether the number of ones is odd |
| Popcount.XorCount | include/libavutil/common.h:446-449 | the ones of a xor are those of both words less twice their common ones |
| Popcount.ParityOfXor | include/libavutil/common.h:446-449 | the parity of a xor is the xor of the parities |
| Clip.ClampIsNearest | include/libavutil/common.h:200-279 | the clamp used below is the one number of the range nearest to the argument |
| Clip.ClipsAreMonotone | include/libavutil/common.h:205-279 | no clip turns the order of two arguments round |
| Clip.UnsignedClipsOutside | include/libavutil/common.h:205-279 | the unsigned clips give 0 for negative numbers and their greatest value for greater ones |
| Clip.AvClipUint8 | include/libavutil/common.h:205-209 | equals the clamp to 0..255 |
| Clip.AvClipInt8 | include/libavutil/common.h:216-220 | equals the clamp to -128..127 |
| Clip.AvClipUint16 | include/libavutil/common.h:227-231 | equals the clamp to 0..65535 |
| Clip.AvClipInt16 | include/libavutil/common.h:238-242 | equals the clamp to -32768..32767 |
| Clip.AvCliplInt32 | include/libavutil/common.h:249-253 | equals the clamp to 32 bits |
| Clip.AvClipIntp2 | include/libavutil/common.h:261-267 | equals the clamp to -2^p..2^p-1 for every int and every p <= 29 |
| Clip.AvClipUintp2 | include/libavutil/common.h:275-279 | equals the clamp to 0..2^p-1 for every int and every p <= 30 |
| Clip.AvSatAdd32 | include/libavutil/common.h:299-302 | the clamp of the exact sum |
| Clip.AvSatDadd32 | include/libavutil/common.h:311-314 | the clamp of a plus the clamp of 2b |
| Clip.AvSatSub32 | include/libavutil/common.h:323-326 | the clamp of the exact difference |
| Clip.AvSatDsub32 | include/libavutil/common.h:335-338 | the clamp of a minus the clamp of 2b |
| Clip.TwoStagesMatter | include/libavutil/common.h:304-338 | saturating at both stages equals saturating once if and only if the doubling does not saturate against the sign of a |
| Saturate.AddBuiltin | include/libavutil/common.h:348-350 | the branch with the overflow builtin is the clamp of the exact sum |
| Saturate.AddPortable | include/libavutil/common.h:352-355 | the branch with the sign test is the clamp of the exact sum |
| Saturate.SignsTest | include/libavutil/common.h:352-353 | the sign of the xor expression finds exactly the sums that leave 64 bits |
| Saturate.SubBuiltin | include/libavutil/common.h:367-369 | the branch with the overflow builtin is the clamp of the exact difference |
| Saturate.SubPortable | include/libavutil/common.h:371-375 | the branch with comparisons is the clamp of the exact difference, and its own sums never overflow |
| Saturate.BodiesAgree | include/libavutil/common.h:347-377 | the two bodies of each function agree for all operands; subtraction is addition of the opposite where that exists |
| Saturate.SubtractLeast | include/libavutil/common.h:366-377 | subtracting the least number is adding the greatest if and only if a >= 0 |
| Rounding.RoundedDivIsNearest | include/libavutil/common.h:47-48 | ROUNDED_DIV(a, b) is the one q with 2 abs(a - qb) <= b, ties away from zero |
| Rounding.OddSymmetric | include/libavutil/common.h:47-48 | ROUNDED_DIV(-a, b) is -ROUNDED_DIV(a, b) |
| Rounding.RShiftExact | include/libavutil/common.h:46-48 | RSHIFT(a, k) is ROUNDED_DIV(a, 2^k) if and only if k > 0 or a > 0 |
| Rounding.CeilRShiftExact | include/libavutil/common.h:49-51 | both forms of AV_CEIL_RSHIFT are the ceiling of a / 2^k and nothing else is |
| Rounding.FloorExact | include/libavutil/common.h:55-56 | FFUDIV and FFUMOD are the one floor quotient and remainder in 0..b-1 |

## Left out

- SDL window, renderer and texture calls, `sws_scale`, file opening and codec setup: foreign calls without state of the program's own.
- The player without an audio stream or device: line 169 dereferences the audio context, so a stream, a device and a positive rate and channel count are assumed.
- The contents of packets and frames: a frame is an opaque value with a presentation time, and decoding is any function of the packets sent.
- `av_packet_alloc` failing, and the empty packet freed at the end of the file: that packet is never shared.
- Time: sleeping and delays are actions that may take any time; clock and presentation times are exact reals where the program has doubles.
- The width of the byte counters: `bytes_per_sec` and the queued size are unbounded, where the program has `int` and `Uint32`.
- Weak memory order: the atomics are sequentially consistent, as their default operations are.
- More user events than some finite number: main could otherwise poll for ever without looking at `quit`.
- PlayerSafety.DeliversSequentialDecode: says nothing once a decoder call has failed, because the library does not promise what a decoder delivers after an error.
- PlayerSafety.ClockReadBounds: the histories of bytes played, taken and refused are bookkeeping the program does not keep.
- PlayerFile.NeverStalls: says nothing about runs with decoder errors, after which the library does not promise what is delivered.
- PlayerFileStall.FileStallsExact: as the lemma before, and for decoders to which one more packet only adds frames at the end.
- PlayerEnd.PlaysToTheEnd: fair schedules and runs without decoder errors only, as the lemmas it rests on.
- PlayerProgress.FairProgress: fair means that a thread ready infinitely often acts infinitely often; a mutex that starves a waiter for ever is not fair, and spurious wake-ups are left out of these schedules.
- The set of threads waiting on a condition variable: it is one place, since only one thread ever waits on each.
- PlayerObject.Player.ReadThread: like the other bodies is followed for a number of turns, after which it is cut off, because it may wait or run for ever.
- Utf8.PutUtf8: values from 2^31 up are outside the original definition of UTF-8.
- Utf8.GetUtf8: reads from a buffer that keeps giving 0 at its end, one of the two forms its comment suggests; a form that reads beyond the end is not modelled.
- IntMath.CeilLog2: arguments below 1 have no logarithm.
- Clip.AvCliplInt32: arguments within 2^31 of the greatest overflow in C.
- Clip.AvClipIntp2: p = 30 shifts into the sign bit, which C leaves undefined.
- Clip.AvClipUintp2: p = 31 shifts into the sign bit.
- Rounding.RoundedDivIsNearest: unbounded integers; b <= 0 is excluded by the comment in the source.
- `av_clip_c`, `av_clip64_c`, `av_mod_uintp2_c`, FFABS and the tag macros: one comparison or mask each.
- The float clips: IEEE details add little.
- The headers that only declare functions: their bodies are not in the repository.
