# Verified models of the IM server's reactor library and caches

The IM server sits on a forked muduo reactor library, keeps users, friendships and group
administrators in memory beside MySQL, and asks a Go service for e-mail verification codes.
This project models the parts of that code where correctness rests on arithmetic, on state
machines or on the order of events, and proves what the code and its tests rely on, for all
inputs and over all runs.

Each module follows one component. What the source computes by expressions is a function; what
it does by changing an object or a buffer is a class or a method with a loop, proved against a
function of the old state (`ensures View() == Step(old(View()), ...)`), and the theorems are
lemmas about those functions and about runs of them. Concurrency is modelled as interleavings of
the atomic actions of all threads: an action is what one thread does under the lock, one call
into the kernel, or one test or assignment of a field that threads share without a lock. Socket writes, poll results, clocks, addresses from the allocator, random codes
and database failures are parameters over which every theorem quantifies.

| module | models | main results |
|---|---|---|
| `Calendar` | civil dates and Julian day numbers | day numbers count calendar days; both conversions are inverse, with the exact first date |
| `TimeZone` | transition tables, seconds to civil time and back | seconds count days from 1 January 1970; the exact seconds that survive a local round trip; which readings are skipped or repeated, and what is answered |
| `TimerQueue` | two ordered sets over timers freed by hand, a timerfd, callbacks that add and cancel | no use after free, no failed assertion, a timer first runs as asked and in the first batch after its time, one-shot runs once, runs are an interval apart, when a cancel is final, the alarm covers every timer |
| `NetBuffer` | the growing byte buffer with two indices | refinement of a byte queue by every operation |
| `Codec`, `Adler` | length-prefixed frames with Adler-32 (section 2.2 of RFC 1950) | the frame byte by byte, the checksum as plain sums, independence of how the stream is cut, exact round trip, detection of damaged frames |
| `TcpConnection` | sends, partial writes, half-close, close, the callbacks of one event, calls by other threads as separate tests, sets and pushes | conservation of bytes against what the socket answered, exactly when the half-close is complete, exactly when the close assertion fails, exactly what a state set after a close breaks |
| `EventLoop` | the functor queue, its wakeups, quitting and looping again | exactly when a poll has its wakeup and a quit its effect; functors run once and in push order, within one more round |
| `AsyncLogging` | the double-buffered logger | no assertion fails; no buffer is leaked; file and buffers hold the accepted lines in order, up to the buffers given up |
| `Pollers` | the poll and epoll back ends | both watch the same descriptors with the same masks after any legal sequence |
| `Http` | the incremental request parser | exactly which lines are accepted, independence of how the input is cut, round trip of rendered requests |
| `LogStream` | numbers as text | text reads back as the number; the five-character form is exact about width, close and monotone |
| `UserManager` | the cache and its tables | the cache equals a reload after any run, who is friends with whom and who administers what after any run, ids are fresh, and exactly when names and addresses stay distinct |
| `CodeStore` | verification codes | acceptance, storage and cooldown characterised exactly over traces |

## Findings

Where a plausible property is false of the code, the model keeps the code and states exactly when
the property holds.

- The day-number round trip holds exactly from 1 March of the year -4800 on (`Calendar.DateRoundTripExactly`); 29 February -4800 and earlier dates come back wrong, because the divisions truncate toward zero. Before that day the numbers also stop counting days, exactly at the end of a February of a leap year or of the year after one (`Calendar.TomorrowIsOneMoreExactly`).
- A second inside the repeated hour before the first or before the last transition of a time zone cannot be recovered from its local reading (`TimeZone.UtcRoundTripExactly`).
- A cancel that reaches the loop before the queued insertion of its timer is lost, and the timer runs (`TimerQueue.CancelIsFinalExactly`).
- A message longer than the 64 MiB limit is encoded and sent without complaint, and blocks the receiving connection for good (`Codec.RoundTripExactly`).
- After a half-close the bytes handed to send do not all go out exactly when, at the half-close, some of them are buffered, have been given up, are in a queued send, or are in a send that another thread has found the connection connected for and has not queued yet (`TcpConnection.HalfCloseCompleteExactly`, with the runs `TcpConnection.QueuedSendIsLost` and `TcpConnection.TestedSendIsLost`).
- `shutdown` and `forceClose` test the state and then set it. When another thread does so around a close, the closed connection becomes disconnecting again (`TcpConnection.LiveAgainExactly`). Throughout a run a live connection writes exactly while bytes are buffered if and only if no state is set in this way with bytes buffered (`TcpConnection.WritingExactly`, with the run `TcpConnection.SetAfterClose`). A half-close happens with bytes unsent exactly when a close left them behind and no send has turned writing on again (`TcpConnection.HalfCloseLeavesExactly`, with the run `TcpConnection.HalfCloseAfterClose`).
- Removing a connection leaves events on its channel exactly while it is disconnecting, except when it has been closed and is not writing (`TcpConnection.DestroyExactly`).
- The callbacks of one event all follow from one report. After a hang-up with urgent data and no ordinary input, a read that finds the end closes the connection a second time and the assertion in `handleClose` fails, and only then, and only if no other thread has set the state back in between (`TcpConnection.CloseAssertionExactly`, with the run `TcpConnection.ClosedTwice`).
- A poll with functors pending has no wakeup exactly when it is the first one since `loop()` was called, no wakeup was coming at the call, and no other thread has pushed or quit since (`EventLoop.WakeupExactly`, with the runs `EventLoop.EarlyFunctorWaits` and, for a second `loop()`, `EventLoop.FunctorBetweenLoopsWaits`).
- A quit issued before `loop()` is overwritten; the loop stops exactly when somebody has quit since it was last called (`EventLoop.StopsExactly`, with the run `EventLoop.EarlyQuitIsLost`).
- `PollPoller::removeChannel` asserts that the channel was updated a second time after being added, and leaves the removed channel's index set, so that adding it again fails (`Pollers.PollPoller.RemovableExactly`, `Pollers.PollPoller.RemoveChannel`).
- `formatSI` needs six or more characters exactly from -10000 downward (`LogStream.FiveCharactersExactly`).
- Changing a user's details takes any mail address, so that two users come to share one exactly when the new address is another user's, and likewise for names given by renaming (`UserManager.UpdateKeepsNamesExactly`, `UserManager.RenameKeepsNamesExactly`, `UserManager.NamesStayDistinctExactly`).
- Making friends with a smaller id that is missing from the cache writes the row but leaves the greater account's set without it (`UserManager.MakeFriendExactly`); naming an administrator of an account that is not a group is forgotten by a reload (`UserManager.SetAdminExactly`); once the user ids reach the boundary the next user gets a group's id (`UserManager.NewUserIdExactly`).

## Model

The methods of the classes that have no row below are each proved to do exactly the step that they
implement; the rows are the results about those steps and the methods with loops.

| member | source | states |
|---|---|---|
| Calendar.DateRoundTrip | IMServer/IMServer/base/Date.cc:21-43 | every valid date from 1 March -4800 on is recovered from its day number |
| Calendar.DateRoundTripExactly | IMServer/IMServer/base/Date.cc:21-43 | a valid date is recovered from its day number if and only if it is 1 March -4800 or later |
| Calendar.DayNumberRoundTrip | IMServer/IMServer/base/Date.cc:30-43 | every day number from that first date's on becomes a valid date with the same number |
| Calendar.EarlierNumbersAreNotDates | IMServer/IMServer/base/Date.cc:30-43 | every smaller day number becomes something that is not a valid date on or after that first date |
| Calendar.DayNumberRoundTripExactly | IMServer/IMServer/base/Date.cc:30-43 | a day number becomes a valid date with that number if and only if it is that first date's or larger |
| Calendar.TomorrowIsOneMore | IMServer/IMServer/base/Date.cc:21-28 | from 1 March -4800 on, the calendar successor of a valid date, across month ends and the 4/100/400 rules, has a day number one larger |
| Calendar.TomorrowIsOneMoreExactly | IMServer/IMServer/base/Date.cc:21-28 | for a valid date of any year that holds if and only if the date is 1 March -4800 or later, or not the end of a February, or the end of one whose year and the year before are not leap years |
| Calendar.DayNumberCountsDays | IMServer/IMServer/base/Date.cc:21-28 | from any valid date on or after 1 March -4800, n calendar days later the day number is n larger |
| Calendar.DifferenceCountsDays | IMServer/IMServer/base/Date.cc:21-28 | the difference of the day numbers of two valid dates on or after 1 March -4800 is the number of calendar steps between them |
| TimeZone.SecondRoundTrip | IMServer/IMServer/base/TimeZone.cc:285-312 | from midnight of 1 March -4800 on, breaking a second into civil time and composing it again gives the same second |
| TimeZone.SecondRoundTripExactly | IMServer/IMServer/base/TimeZone.cc:285-312 | a second breaks into a civil time of the calendar that composes to it if and only if it is not before that midnight |
| TimeZone.CivilRoundTrip | IMServer/IMServer/base/TimeZone.cc:293-312 | a valid civil time on or after 1 March -4800 is recovered from its second |
| TimeZone.CivilRoundTripExactly | IMServer/IMServer/base/TimeZone.cc:293-312 | a civil time of any year is recovered from its second if and only if its date is 1 March -4800 or later |
| TimeZone.EpochDayNumber | IMServer/IMServer/base/Date.cc:45-45 | 1 January 1970 has the day number 2440588 |
| TimeZone.SecondsCountDays | IMServer/IMServer/base/TimeZone.cc:285-312 | a second from 1970 on breaks into the date that many days of 86400 seconds after 1 January 1970, and the time of day of the rest |
| TimeZone.EarlierSecondsCountDays | IMServer/IMServer/base/TimeZone.cc:285-312 | an earlier second, from the first day on, breaks into the date from which the calendar walks forward to 1 January 1970 in as many days |
| TimeZone.CivilTimeCountsDays | IMServer/IMServer/base/TimeZone.cc:498-504 | a civil time n days after 1 January 1970 composes to n times 86400 seconds and its time of day |
| TimeZone.EarlierCivilTimeCountsDays | IMServer/IMServer/base/TimeZone.cc:498-504 | a civil time n days before 1 January 1970 composes to its time of day less n times 86400 seconds |
| TimeZone.Data.AddTransition | IMServer/IMServer/base/TimeZone.cc:54-58 | appends a transition whose local time agrees with its entry's offset; refuses a bad index and then changes nothing |
| TimeZone.UpperBoundSplits | IMServer/IMServer/base/TimeZone.cc:339-352 | the halving search of std::upper_bound splits an increasing table into the keys up to the value and those above it |
| TimeZone.StretchGivesOffset | IMServer/IMServer/base/TimeZone.cc:318-356 | within the stretch after a transition, that transition's offset is the one in force |
| TimeZone.AnswersInStretch | IMServer/IMServer/base/TimeZone.cc:358-430 | both answers for a local reading, case by case: skipped, repeated or unique |
| TimeZone.TwiceTheLargestJumpIsEnough | IMServer/IMServer/base/TimeZone.cc:318-430 | transitions further apart than twice the largest offset change are spaced as the theorems require |
| TimeZone.UtcRoundTripExactly | IMServer/IMServer/base/TimeZone.cc:318-430 | for every well-spaced table, one of the two answers returns the second if and only if it lies outside the windows before the first and before the last transition |
| TimeZone.AnswersShowReading | IMServer/IMServer/base/TimeZone.cc:358-491 | for a reading that some second shows, both answers show it, and the pre-transition answer is the earlier |
| TimeZone.LocalRoundTripExactly | IMServer/IMServer/base/TimeZone.cc:358-491 | an answer shows the reading asked for if and only if some second shows it |
| TimeZone.AnswersOrdered | IMServer/IMServer/base/TimeZone.cc:406-430 | for an existing reading with two answers, the pre-transition one is earlier |
| TimeZone.AnswersAreAllSeconds | IMServer/IMServer/base/TimeZone.cc:358-430 | outside the two windows, every second that shows a reading is one of its answers |
| TimeZone.MissingExactlyInSkips | IMServer/IMServer/base/TimeZone.cc:380-404 | the readings no second shows are exactly those inside a skip |
| TimeZone.SkipAnswersDifferByJump | IMServer/IMServer/base/TimeZone.cc:392-404 | inside a skip other than the first transition's, the two answers differ by exactly the offset change |
| TimeZone.ToLocalRoundTrip | IMServer/IMServer/base/TimeZone.cc:461-491 | toLocalTime and then fromLocalTime, through civil fields, recover a second whose local reading is on or after 1 March -4800 if and only if it lies outside the two windows |
| TimeZone.FromLocalRoundTrip | IMServer/IMServer/base/TimeZone.cc:461-491 | fromLocalTime and then toLocalTime recover a civil reading of any year if and only if it is on or after 1 March -4800 and some second shows it |
| TimerQueue.StepKeepsInv | IMServer/IMServer/net/TimerQueue.cc:116-259 | every action keeps: both sets index the same timers, each timer has exactly one owner, the alarm covers the timers, and the history of runs is as stated below |
| TimerQueue.RunKeepsInv | IMServer/IMServer/net/TimerQueue.cc:116-259 | and so every run does |
| TimerQueue.OnlyLiveTimersAreTouched | IMServer/IMServer/net/TimerQueue.cc:143-233 | in every run an action reads only timers that are allocated, and frees only such a timer: no use after free, no double free |
| TimerQueue.AssertionsHold | IMServer/IMServer/net/TimerQueue.cc:143-259 | none of the assertions about erase, insert, the sentry and equal sizes fails in any run |
| TimerQueue.SameSize | IMServer/IMServer/net/TimerQueue.cc:146-160 | the two sets have the same number of elements |
| TimerQueue.NothingLeaks | IMServer/IMServer/net/TimerQueue.cc:204-233 | between batches every allocated timer is in both sets or waits for its insertion |
| TimerQueue.BatchIsWhatIsDue | IMServer/IMServer/net/TimerQueue.cc:183-202 | a batch is exactly the timers whose time has come, in order of time |
| TimerQueue.WholeBatchRuns | IMServer/IMServer/net/TimerQueue.cc:171-180 | when the callbacks of a batch are done, the latest runs are exactly the batch's timers, each once, in order |
| TimerQueue.SurvivesExactly | IMServer/IMServer/net/TimerQueue.cc:204-222 | a timer of a batch lives on if and only if it repeats and nothing cancelled it during the batch, and is then due an interval after the batch's time |
| TimerQueue.RunsAreSpaced | IMServer/IMServer/net/Timer.h:29-58 | a timer that ran had expired; one that ran twice repeats, and the two runs lie in different batches at least its interval apart |
| TimerQueue.FirstRunIsAsAsked | IMServer/IMServer/net/Timer.h:31-37 | in every run the first run of a timer is of the time, interval and repetition its caller passed, and not before that time |
| TimerQueue.FirstBatchTakesTimer | IMServer/IMServer/net/TimerQueue.cc:116-202 | in every run a timer that was inserted and not cancelled is in the first batch that begins at the time its caller passed or later |
| TimerQueue.AlarmCoversTimers | IMServer/IMServer/net/TimerQueue.cc:41-80 | outside a batch the timerfd is due no later than every timer, or 100 microseconds after it was set, whatever the expirations |
| TimerQueue.AlarmIsForTheEarliest | IMServer/IMServer/net/TimerQueue.cc:41-52 | whenever the alarm is set it is for the earliest timer, at its very time or, when that is later, 100 microseconds from then |
| TimerQueue.CancelledNeverRunsLater | IMServer/IMServer/net/TimerQueue.cc:143-161 | a timer cancelled while indexed or in the current batch never runs in a later batch of any continuation, and runs in the current one only if it was taken out for it |
| TimerQueue.CancelIsFinalExactly | IMServer/IMServer/net/TimerQueue.cc:116-161 | the cancel of an allocated timer is final for all continuations if and only if its insertion is no longer queued |
| TimerQueue.PendingCancelIsLost | IMServer/IMServer/net/TimerQueue.cc:116-161 | a continuation in which a timer cancelled before its insertion runs in a later batch |
| TimerQueue.TimerQueue.TakeDue | IMServer/IMServer/net/TimerQueue.cc:183-202 | moves exactly the due entries out of both sets, in order |
| TimerQueue.TimerQueue.Reset | IMServer/IMServer/net/TimerQueue.cc:204-233 | the loop over the batch, then the alarm for the new earliest time |
| TimerQueue.TimerQueue.HandleRead | IMServer/IMServer/net/TimerQueue.cc:163-181 | a whole batch, whatever its callbacks add and cancel, is a run of the actions above |
| TimerQueue.TimerQueue.Destroy | IMServer/IMServer/net/TimerQueue.cc:104-114 | frees every inserted timer once; what remains is what was queued |
| NetBuffer.Buffer.Append | IMServer/IMServer/net/Buffer.h:182-192 | adds the bytes at the end of the queue |
| NetBuffer.Buffer.Prepend | IMServer/IMServer/net/Buffer.h:354-360 | adds the bytes in front of the queue |
| NetBuffer.Buffer.EnsureWritableBytes | IMServer/IMServer/net/Buffer.h:194-201 | makes room and keeps the queue |
| NetBuffer.Buffer.MakeSpace | IMServer/IMServer/net/Buffer.h:390-409 | grows or compacts in place without changing the queue; the asserted reader index holds where it is called |
| NetBuffer.Buffer.Slide | IMServer/IMServer/net/Buffer.h:397-408 | the in-place compaction moves the readable bytes to the cheap-prepend mark unchanged |
| NetBuffer.Buffer.Shrink | IMServer/IMServer/net/Buffer.h:362-369 | moves the queue to a new store of the size asked for, unchanged |
| NetBuffer.Buffer.ReadFd | IMServer/IMServer/net/Buffer.cc:25-57 | the queue gains exactly the bytes received, split between the tail and the overflow area |
| NetBuffer.Buffer.PeekInt | IMServer/IMServer/net/Buffer.h:290-323 | reads the integer in front |
| NetBuffer.Buffer.SearchCRLF | IMServer/IMServer/net/Buffer.h:80-94 | finds the first line end |
| NetBuffer.LineEndExactly | IMServer/IMServer/net/Buffer.h:80-92 | the end of a line is the first byte 13 followed by a byte 10 |
| Bytes.IntBytesRoundTrip | IMServer/IMServer/net/Buffer.h:224-323 | a signed integer that fits the width is recovered from its network-order bytes |
| Bytes.BytesIntRoundTrip | IMServer/IMServer/net/Buffer.h:224-323 | bytes are recovered from the signed integer they encode |
| Bytes.IntBytesAreBigEndian | IMServer/IMServer/net/Buffer.h:224-249 | an integer is written most significant byte first, a negative one as its two's complement |
| Bytes.BytesIntIsBigEndian | IMServer/IMServer/net/Buffer.h:294-322 | bytes are read most significant first, as a negative integer from the upper half of their range on |
| Adler.OneByteChangeDetected | IMServer/IMServer/net/protobuf/ProtobufCodecLite.cc:195-199 | two inputs that differ in one byte have different checksums |
| Adler.SwapDetected | IMServer/IMServer/net/protobuf/ProtobufCodecLite.cc:195-199 | swapping two different neighbouring bytes changes the checksum |
| Adler.ChecksumIsPlainSums | IMServer/IMServer/net/protobuf/ProtobufCodecLite.cc:195-199 | the low half of the checksum is one more than the sum of the bytes, the high half the number of bytes and the sum in which each byte counts as often as bytes follow from it on, both modulo 65521, as section 2.2 of RFC 1950 has it |
| Codec.FillEmptyBuffer | IMServer/IMServer/net/protobuf/ProtobufCodecLite.cc:42-56 | leaves in the buffer exactly the frame of the message |
| Codec.FrameLayout | IMServer/IMServer/net/protobuf/ProtobufCodecLite.cc:42-56 | a frame is the big-endian length of what follows, the tag, the payload and the big-endian Adler-32 checksum of tag and payload |
| Codec.FrontExactly | IMServer/IMServer/net/protobuf/ProtobufCodecLite.cc:58-115 | case by case, which front of the input is incomplete, skipped, refused and with which code, or delivered |
| Codec.SerializeToBuffer | IMServer/IMServer/net/protobuf/ProtobufCodecLite.cc:104-137 | appends exactly the message's serialized bytes |
| Codec.OnMessage | IMServer/IMServer/net/protobuf/ProtobufCodecLite.cc:58-97 | delivers exactly the messages the input decodes to, leaves exactly the undecoded rest, and terminates |
| Codec.ParseOfEncode | IMServer/IMServer/net/protobuf/ProtobufCodecLite.cc:209-241 | the body of an encoded frame parses to its message |
| Codec.FrontIsStable | IMServer/IMServer/net/protobuf/ProtobufCodecLite.cc:58-97 | what the front of the buffer holds, once decided, does not change when more bytes arrive |
| Codec.DecodeSplits | IMServer/IMServer/net/protobuf/ProtobufCodecLite.cc:58-97 | decoding a prefix and then the rest is decoding the whole |
| Codec.SplitDoesNotMatter | IMServer/IMServer/net/protobuf/ProtobufCodecLite.cc:58-97 | feeding chunks gives what decoding their concatenation gives |
| Codec.StreamDependsOnBytesOnly | IMServer/IMServer/net/protobuf/ProtobufCodecLite.cc:58-97 | any two ways of cutting one stream deliver the same messages and leave the same rest |
| Codec.DecodeOfEncodeAll | IMServer/IMServer/net/protobuf/ProtobufCodecLite.cc:42-97 | the concatenated frames decode to the messages before the first one that is too long, and stop there |
| Codec.RoundTripExactly | IMServer/IMServer/net/protobuf/ProtobufCodecLite.cc:42-97 | however cut, the frames of a list of messages decode to the list if and only if none is longer than the limit |
| Codec.ByteChangeRejected | IMServer/IMServer/net/protobuf/ProtobufCodecLite.cc:201-207 | a valid frame with any one byte of tag, payload or checksum changed fails validation |
| Codec.SwapRejected | IMServer/IMServer/net/protobuf/ProtobufCodecLite.cc:201-207 | a valid frame with two different neighbouring tag or payload bytes swapped fails validation |
| Codec.BrokenFrontBlocks | IMServer/IMServer/net/protobuf/ProtobufCodecLite.cc:176-186 | once a bad frame is at the front, no later input is ever delivered |
| Codec.DamagedFrameBlocks | IMServer/IMServer/net/protobuf/ProtobufCodecLite.cc:58-97 | a sent frame damaged in one byte after the length ends the conversation |
| TcpConnection.StepKeepsInv | IMServer/IMServer/net/TcpConnection.cc:92-421 | every action, of the loop's thread or of another, keeps the byte accounting, the flags, the shutdown obligations and the order of callbacks |
| TcpConnection.RunKeepsInv | IMServer/IMServer/net/TcpConnection.cc:92-421 | and so every run does |
| TcpConnection.BytesConserved | IMServer/IMServer/net/TcpConnection.cc:139-192 | in every run bytes taken followed by bytes buffered are the bytes kept, in order, and until a broken pipe all bytes accepted; the channel writes only on a live connection with bytes buffered |
| TcpConnection.HistoryIsWhatHappened | IMServer/IMServer/net/TcpConnection.cc:139-406 | in every run the bytes recorded as taken are exactly those the socket answered to have taken, event by event, of what was offered to it, and likewise the bytes accepted, kept and given up |
| TcpConnection.ConnectedExactly | IMServer/IMServer/net/TcpConnection.cc:194-414 | a connection is connected exactly from its establishment to the first shutdown, forced close, set by another thread or close |
| TcpConnection.ForceCloseIsNotLost | IMServer/IMServer/net/TcpConnection.cc:239-269 | once a forced close of a live connection has been called, by any thread, the connection has been closed when no such call is under way and the queue is empty |
| TcpConnection.CallsUnderWayExactly | IMServer/IMServer/net/TcpConnection.cc:194-247 | in every run the calls of other threads that have passed their test, or have set the state, and have not gone on are those begun less those continued |
| TcpConnection.TasksRunInOrder | IMServer/IMServer/net/TcpConnection.cc:92-269 | in every run functors run once each in the order in which sends, shutdowns, forced closes and notices queued them |
| TcpConnection.LiveAgainExactly | IMServer/IMServer/net/TcpConnection.cc:194-247 | a connection that has been closed is live if and only if another thread has set its state since its latest close |
| TcpConnection.WritingExactly | IMServer/IMServer/net/TcpConnection.cc:139-259 | throughout a run a live connection's channel writes exactly while bytes are buffered, if and only if no state is set on a connection closed with bytes buffered |
| TcpConnection.EventIsItsCallbacks | IMServer/IMServer/net/Channel.cc:83-113 | one event, with its callbacks decided from one report, is the run of close, read and write |
| TcpConnection.CloseAssertionExactly | IMServer/IMServer/net/TcpConnection.cc:408-413 | the assertion in handleClose holds if and only if the call is not from a read of nothing in an event that began with a hang-up, or another thread has set the state since the latest close |
| TcpConnection.ClosedTwice | IMServer/IMServer/net/Channel.cc:86-109 | a run in which it fails: a hang-up with urgent data |
| TcpConnection.WriteCallbackExactly | IMServer/IMServer/net/TcpConnection.cc:368-406 | a write callback finds the channel writing if and only if no earlier callback of its event closed the connection, and otherwise changes nothing |
| TcpConnection.WriteAfterClose | IMServer/IMServer/net/Channel.cc:104-111 | a run in which it is called on a connection that the same event's read has closed |
| TcpConnection.HalfCloseIsLast | IMServer/IMServer/net/TcpConnection.cc:205-213 | as long as no state is set after a close, a half-close on a connection that is not closed comes after every byte accepted has been taken |
| TcpConnection.HalfCloseExactly | IMServer/IMServer/net/TcpConnection.cc:194-391 | the socket is half-closed by exactly these: a shutdown on the loop's thread or its functor while nothing is being written, or the write that empties the buffer of a disconnecting connection |
| TcpConnection.HalfCloseLeavesExactly | IMServer/IMServer/net/TcpConnection.cc:205-213 | in every run a half-close leaves bytes unsent if and only if a close left bytes buffered and no send has turned writing on again since |
| TcpConnection.LeftBehindExactly | IMServer/IMServer/net/TcpConnection.cc:139-213 | in every state of every run bytes are buffered and not being written if and only if a close left them behind |
| TcpConnection.NothingAfterHalfClose | IMServer/IMServer/net/TcpConnection.cc:205-213 | after the half-close no further byte is taken in any run |
| TcpConnection.ShutdownIsNotLost | IMServer/IMServer/net/TcpConnection.cc:194-213 | a connection shutting down that is not writing, with nothing queued and no call between its set and its push, has been half-closed |
| TcpConnection.LoopSendsAllGoOut | IMServer/IMServer/net/TcpConnection.cc:92-213 | when only the loop's thread sends, and no send met a broken pipe, what has been taken at a half-close is everything handed to send, in order, if and only if no close has left bytes behind |
| TcpConnection.HalfCloseCompleteExactly | IMServer/IMServer/net/TcpConnection.cc:92-213 | in every run, the bytes ever taken after a half-close, with those then buffered, given up, in queued sends and in sends about to be queued, are the bytes handed to send; all go out if and only if none of the latter four holds any |
| TcpConnection.NothingGoesMissing | IMServer/IMServer/net/TcpConnection.cc:92-192 | in every run every byte handed to send has been kept or given up, or is in a queued send or in one about to be queued |
| TcpConnection.NothingMoreSubmitted | IMServer/IMServer/net/TcpConnection.cc:92-110 | after a half-close send accepts no further byte |
| TcpConnection.QueuedSendIsLost | IMServer/IMServer/net/TcpConnection.cc:92-213 | a run in which another thread's queued send is overtaken by the half-close and lost |
| TcpConnection.TestedSendIsLost | IMServer/IMServer/net/TcpConnection.cc:92-110 | a run in which the half-close comes between another thread's test and its push, with no send queued, and the byte is lost |
| TcpConnection.HalfCloseAfterClose | IMServer/IMServer/net/TcpConnection.cc:205-213 | a run in which the half-close happens on a closed connection with bytes unsent |
| TcpConnection.SetAfterClose | IMServer/IMServer/net/TcpConnection.cc:194-213 | a run in which another thread's shutdown sets the state after the peer's close has been read: the connection is live, does not write its buffered byte, and is half-closed with it unsent |
| TcpConnection.SendNotices | IMServer/IMServer/net/TcpConnection.cc:151-192 | a send reports completion exactly when nothing is left to write, and a high-water crossing exactly when it lifts the buffer to the mark |
| TcpConnection.WriteNotices | IMServer/IMServer/net/TcpConnection.cc:376-391 | a write event reports completion exactly when it empties the buffer |
| TcpConnection.DestroyExactly | IMServer/IMServer/net/TcpConnection.cc:334-345 | destruction leaves no events on the channel if and only if the connection is not disconnecting, or has been closed and is not writing |
| EventLoop.StepKeepsInv | IMServer/IMServer/net/EventLoop.cc:103-171 | every action of any thread keeps the wakeup and order invariant |
| EventLoop.RunKeepsInv | IMServer/IMServer/net/EventLoop.cc:103-171 | and so every interleaving does |
| EventLoop.StartFound | IMServer/IMServer/net/EventLoop.cc:103-108 | whatever a loop does in a run, it does after a latest call of loop() |
| EventLoop.WakeupExactly | IMServer/IMServer/net/EventLoop.cc:103-171 | when the loop polls with functors pending, the eventfd is set or about to be set if and only if this is not the first poll since loop() was last called, or it was so at the call, or another thread has pushed or quit since |
| EventLoop.WakeupAtFirstStart | IMServer/IMServer/net/EventLoop.cc:103-171 | until loop() is called for the first time, a wakeup is there or coming if and only if another thread has pushed or quit |
| EventLoop.QuitFlagExactly | IMServer/IMServer/net/EventLoop.cc:103-146 | the quit flag is set if and only if somebody has quit since loop() was last called |
| EventLoop.StopsExactly | IMServer/IMServer/net/EventLoop.cc:108-111 | the loop stops at its test if and only if somebody has quit since loop() was last called |
| EventLoop.QuitWakesPoll | IMServer/IMServer/net/EventLoop.cc:136-146 | a poll after a quit issued since loop() was last called has a wakeup there or coming |
| EventLoop.EarlyQuitIsLost | IMServer/IMServer/net/EventLoop.cc:108-108 | a run in which another thread's quit before the start is overwritten and the loop sleeps in a later poll |
| EventLoop.RunsInPushOrder | IMServer/IMServer/net/EventLoop.cc:254-269 | what has run is a prefix of what was pushed, and nothing disappears |
| EventLoop.HistoryIsWhatHappened | IMServer/IMServer/net/EventLoop.cc:103-171 | in every run the recorded pushes are exactly what the threads queued, and the recorded runs and turns number the calls of functors and the returns of polls |
| EventLoop.CallsInPushOrder | IMServer/IMServer/net/EventLoop.cc:254-269 | the functor that the loop calls as its n-th is the n-th that any thread queued |
| EventLoop.ServedBeforeNextPoll | IMServer/IMServer/net/EventLoop.cc:103-134 | everything pushed before a poll has run by the time the loop polls again |
| EventLoop.EarlyFunctorWaits | IMServer/IMServer/net/EventLoop.cc:160-171 | a run in which a functor queued before looping waits at a poll with no wakeup |
| EventLoop.FunctorBetweenLoopsWaits | IMServer/IMServer/net/EventLoop.cc:103-171 | a run in which the same happens at the first poll of a second loop() |
| AsyncLogging.Logger.WriteBuffers | IMServer/IMServer/base/AsyncLogging.cc:90-132 | writes the batch, dropping all but two buffers of more than 25, and takes back two empty buffers |
| AsyncLogging.StepKeepsInv | IMServer/IMServer/base/AsyncLogging.cc:34-135 | every action of any thread keeps the shape of the buffers and the account of the lines |
| AsyncLogging.RunKeepsInv | IMServer/IMServer/base/AsyncLogging.cc:34-135 | and so every interleaving does |
| AsyncLogging.LoggingThreadNeverFails | IMServer/IMServer/base/AsyncLogging.cc:60-129 | none of the logging thread's assertions fails in any interleaving |
| AsyncLogging.RunningExactly | IMServer/IMServer/base/AsyncLogging.h:40-54 | the logger is running exactly from its start to its stop |
| AsyncLogging.StopsExactly | IMServer/IMServer/base/AsyncLogging.cc:69-69 | at its test the logging thread goes on if and only if nobody has called stop |
| AsyncLogging.RoundGoesOn | IMServer/IMServer/base/AsyncLogging.cc:57-135 | each action of the logging thread brings it to the next place of its round |
| AsyncLogging.RoundTakesEverything | IMServer/IMServer/base/AsyncLogging.cc:73-131 | everything appended before a swap is in the batches written by the end of that round |
| AsyncLogging.BuffersConserved | IMServer/IMServer/base/AsyncLogging.cc:34-135 | in every run the buffers in play are the first four and those allocated since, less those dropped after writing: none is leaked or used twice |
| AsyncLogging.TextsOfWritten | IMServer/IMServer/base/AsyncLogging.cc:92-107 | a batch of at most 25 buffers is written whole; of a larger one its first two buffers, after one notice of how many were dropped |
| AsyncLogging.FileIsKept | IMServer/IMServer/base/AsyncLogging.cc:92-107 | the lines in the file are, in order, those each round kept |
| AsyncLogging.EveryLineAccounted | IMServer/IMServer/base/AsyncLogging.cc:34-135 | batches taken and buffers hold exactly the appended lines in order, and the file holds in order what each round kept: the whole batch, or its first two buffers; every line is in the file, buffered or given up |
| Pollers.MatchedRemove | IMServer/IMServer/net/poller/PollPoller.cc:112-140 | swap-with-last keeps channels and slots in one-to-one correspondence with the sign encoding right |
| Pollers.PollPoller.UpdateChannel | IMServer/IMServer/net/poller/PollPoller.cc:75-110 | registers or changes one channel's mask and keeps the correspondence |
| Pollers.PollPoller.RemoveChannel | IMServer/IMServer/net/poller/PollPoller.cc:112-140 | removes exactly that channel; the object cannot be added again |
| Pollers.PollPoller.RemovableExactly | IMServer/IMServer/net/poller/PollPoller.cc:112-123 | the asserted slot state holds if and only if the channel was updated more than once |
| Pollers.PollPoller.FillActiveChannels | IMServer/IMServer/net/poller/PollPoller.cc:55-73 | reports, in slot order, the first numEvents channels with events, or all if there are fewer |
| Pollers.PollPoller.WatchesRegistered | IMServer/IMServer/net/poller/PollPoller.cc:75-140 | poll watches exactly the registered channels with a non-empty mask |
| Pollers.EPollPoller.UpdateChannel | IMServer/IMServer/net/poller/EPollPoller.cc:107-149 | the kernel set follows the channel through new, added and deleted |
| Pollers.EPollPoller.RemoveChannel | IMServer/IMServer/net/poller/EPollPoller.cc:151-170 | removes exactly that channel |
| Pollers.EPollPoller.WatchesRegistered | IMServer/IMServer/net/poller/EPollPoller.cc:107-170 | epoll watches exactly the registered channels with a non-empty mask |
| Pollers.RunBoth | IMServer/IMServer/net/poller/PollPoller.cc:75-140 | after any legal sequence of updates and removals both pollers watch the same descriptors with the same non-empty masks |
| Http.HttpRequest.AddHeaderLine | IMServer/IMServer/net/http/HttpRequest.h:135-149 | stores the field with its value trimmed from both ends |
| Http.HttpContext.ProcessLine | IMServer/IMServer/net/http/HttpContext.cc:16-58 | the request line's fields, partly set when the line is refused |
| Http.HttpContext.ParseRequest | IMServer/IMServer/net/http/HttpContext.cc:60-118 | consumes complete lines until done, refused or out of lines, and terminates |
| Http.RequestLineExactly | IMServer/IMServer/net/http/HttpContext.cc:16-58 | a request line is accepted if and only if it is GET, POST, HEAD, PUT or DELETE, a target without spaces, and HTTP/1.0 or HTTP/1.1, joined by single spaces |
| Http.ShapeAccepted | IMServer/IMServer/net/http/HttpContext.cc:16-58 | an accepted line sets the method, the version, the path up to the first '?' of the target and the query from there on |
| Http.HeaderLineExactly | IMServer/IMServer/net/http/HttpRequest.h:135-149 | a header line splits at its first ':' and its value loses exactly the white space around it |
| Http.HeadersEndExactly | IMServer/IMServer/net/http/HttpContext.cc:82-104 | a line ends the headers if and only if it has no ':' |
| Http.TrimSplits | IMServer/IMServer/net/http/HttpRequest.h:135-149 | what trimming removes is white space on both sides, and what remains neither begins nor ends with it |
| Http.ParseSplits | IMServer/IMServer/net/http/HttpContext.cc:60-118 | parsing in two steps ends where parsing at once ends, unless the first step was final |
| Http.SplitDoesNotMatter | IMServer/IMServer/net/http/HttpContext.cc:60-118 | feeding pieces gives the state, request, rest and verdict of the whole |
| Http.RequestDependsOnBytesOnly | IMServer/IMServer/net/http/HttpContext.cc:60-118 | from a fresh context the outcome depends on the bytes alone |
| Http.RequestLineRoundTrip | IMServer/IMServer/net/http/HttpContext.cc:16-58 | a rendered request line reads back as its method, path, query and version |
| Http.HeaderLineRoundTrip | IMServer/IMServer/net/http/HttpRequest.h:135-149 | a rendered header reads back as its field and value |
| Http.RequestRoundTrip | IMServer/IMServer/net/http/HttpContext.cc:16-118 | a rendered request, however cut and whatever follows it, reads back as itself and leaves what follows |
| LogStream.NumeralReadsBack | IMServer/IMServer/base/LogStream.cc:47-83 | the digits of a number stand for that number, in either base |
| LogStream.NumeralLength | IMServer/IMServer/base/LogStream.cc:47-83 | a number has at most k digits if and only if it is below the base to the k |
| LogStream.DecimalReadsBack | IMServer/IMServer/base/LogStream.cc:47-67 | the decimal text of any integer, negative ones included, reads back as it |
| LogStream.DecimalLength | IMServer/IMServer/base/LogStream.cc:47-67 | a 64-bit integer, signed or unsigned, takes at most 20 characters |
| LogStream.MirroredIsDigit | IMServer/IMServer/base/LogStream.cc:38-58 | a truncating remainder of either sign indexes the right digit of the mirrored table |
| LogStream.ReverseRange | IMServer/IMServer/base/LogStream.cc:64-66 | reverses the range in place and nothing else |
| LogStream.Convert | IMServer/IMServer/base/LogStream.cc:47-67 | writes exactly the decimal text of every 64-bit integer, and a terminator, within 21 characters |
| LogStream.ConvertHex | IMServer/IMServer/base/LogStream.cc:69-87 | writes exactly the hexadecimal text, and a terminator |
| LogStream.FixedBuffer.FormatInteger | IMServer/IMServer/base/LogStream.cc:236-244 | the line gains the whole text, or nothing when fewer than 48 characters are free |
| LogStream.UnitFits | IMServer/IMServer/base/LogStream.cc:106-138 | every branch keeps the quantity between 99.95 and 999.5 units of its last printed digit |
| LogStream.FiveCharactersExactly | IMServer/IMServer/base/LogStream.cc:102-141 | the text has at most five characters if and only if the quantity is above -10000 |
| LogStream.DisplayedIsClose | IMServer/IMServer/base/LogStream.cc:102-141 | the displayed quantity is off by at most one part in 201, and exact below 1000 |
| LogStream.DisplayedGrows | IMServer/IMServer/base/LogStream.cc:102-141 | a larger quantity is never displayed as a smaller one, however ties are rounded |
| UserManager.StepKeepsInv | IMServer/IMServer/UserManager.cpp:54-540 | every operation on known accounts keeps: cache equals reload, rows name known accounts, the list and the ids agree, the bases bound the ids |
| UserManager.RunKeepsInv | IMServer/IMServer/UserManager.cpp:54-540 | and so every serial run of such operations does |
| UserManager.CacheEqualsReload | IMServer/IMServer/UserManager.cpp:30-52 | after any run every cached account has exactly the friends and administrators a fresh load would give it |
| UserManager.ReloadReads | IMServer/IMServer/UserManager.cpp:30-52 | a reload gives each account the other end of every row that names it, and administrators to the ids from 0xFFFFFFF on only |
| UserManager.FriendshipIsSymmetric | IMServer/IMServer/UserManager.cpp:152-180 | after any run friendship is symmetric, irreflexive and among known accounts |
| UserManager.FriendsExactly | IMServer/IMServer/UserManager.cpp:231-276 | after any run two accounts are friends if and only if a call made them friends and none has parted them since, or they were friends at its start and none has |
| UserManager.AdminsExactly | IMServer/IMServer/UserManager.cpp:413-447 | after any run a user administers a group if and only if the latest call about the two that took effect said so, or they did at its start and there was none |
| UserManager.AccountsExactly | IMServer/IMServer/UserManager.cpp:54-364 | after any run the accounts are those of its start and those that successful registrations and new groups were given ids for |
| UserManager.MakeFriendMakesFriends | IMServer/IMServer/UserManager.cpp:231-251 | for any ids, making friends succeeds exactly when they are given in order, the table is reached and both are cached; the table gains exactly their row when it is reached, each the other as a friend unless the smaller is missing, and nothing else changes |
| UserManager.ReleaseFriendEndsFriendship | IMServer/IMServer/UserManager.cpp:253-276 | releasing removes exactly the pair's rows and friendship, when the ids are in order and the table is reached |
| UserManager.DeleteFriendEndsFriendship | IMServer/IMServer/UserManager.cpp:515-540 | deleting does so for the ids in either order |
| UserManager.SetAdminSetsAdmin | IMServer/IMServer/UserManager.cpp:413-447 | setting an administrator adds or removes exactly that one, in the table and for the cached account, and fails exactly when the table is needed and not reached |
| UserManager.RegistrationAddsAccount | IMServer/IMServer/UserManager.cpp:54-97 | a registration fails for exactly the stated reasons and codes and then changes nothing; otherwise it adds exactly the account it was given, under the next id |
| UserManager.GroupIsAdded | IMServer/IMServer/UserManager.cpp:335-364 | adding a group adds exactly the account it was given, under the next group id, or only uses the id up |
| UserManager.UpdatesChangeOneAccount | IMServer/IMServer/UserManager.cpp:278-386 | an update changes the mail address, and a renaming the name, of exactly one account, in cache and table |
| UserManager.FriendsAfterDelete | IMServer/IMServer/UserManager.cpp:253-276 | deleting all rows of a pair removes exactly that friendship from a reload |
| UserManager.MakeFriendExactly | IMServer/IMServer/UserManager.cpp:231-251 | with any ids, the cache still equals a reload if and only if the greater account is not left without a friend its table row gives it |
| UserManager.SetAdminExactly | IMServer/IMServer/UserManager.cpp:413-447 | the cache still equals a reload if and only if no account below the group boundary gains an administrator |
| UserManager.NewUserIdExactly | IMServer/IMServer/UserManager.cpp:70-82 | a registration that can succeed gets an unused id on the users' side if and only if there is room below the boundary |
| UserManager.NewGroupIdIsFresh | IMServer/IMServer/UserManager.cpp:335-347 | a group gets an unused id above the boundary; a failed attempt uses the id up |
| UserManager.TakenExactly | IMServer/IMServer/UserManager.cpp:61-66 | registration is refused if and only if some account has the name or the non-empty mail address, and the code says which |
| UserManager.UpdateKeepsNamesExactly | IMServer/IMServer/UserManager.cpp:278-312 | a change of details keeps users' names and addresses distinct if and only if no other user holds the new non-empty address |
| UserManager.RenameKeepsNamesExactly | IMServer/IMServer/UserManager.cpp:366-386 | a renaming does if and only if the id is not a user's or no other user has the name |
| UserManager.NamesStayDistinctExactly | IMServer/IMServer/UserManager.cpp:54-386 | over a run no two users ever share a name or an address if and only if no update takes one that another user has |
| UserManager.SharedAddress | IMServer/IMServer/UserManager.cpp:278-312 | a run of two registrations and an update after which two users share an address |
| UserManager.UserManager.LoadUserFromDB | IMServer/IMServer/UserManager.cpp:99-150 | one shared object for each row in query order, and the two bases |
| UserManager.UserManager.LoadRelationshipFromDB | IMServer/IMServer/UserManager.cpp:152-180 | collects exactly the friends the rows give |
| UserManager.UserManager.LoadGroupAdminsFromDB | IMServer/IMServer/UserManager.cpp:388-403 | collects exactly the administrators the rows give |
| UserManager.UserManager.Init | IMServer/IMServer/UserManager.cpp:30-52 | fills every account whose queries work; when all do, the state is one the theorems start from |
| CodeStore.Store.Generate | GoMailServer/internal/store/codestore.go:45-65 | refuses during the cooldown with the seconds left, else stores a fresh entry |
| CodeStore.Store.Verify | GoMailServer/internal/store/codestore.go:68-92 | accepts and deletes, counts a wrong try, or drops an expired or exhausted code |
| CodeStore.Store.CleanupExpired | GoMailServer/internal/store/codestore.go:95-105 | removes exactly the expired entries and returns how many |
| CodeStore.IssuedCodeWorks | GoMailServer/internal/store/codestore.go:45-92 | the code returned, and no other, is then accepted for the address until its time has passed; a refusal hands out nothing and changes nothing, and other addresses are untouched |
| CodeStore.RemainingIsEnough | GoMailServer/internal/store/codestore.go:50-56 | waiting the reported seconds ends the cooldown, one less does not get past it |
| CodeStore.EntryFromTrace | GoMailServer/internal/store/codestore.go:45-105 | the stored entry is determined by the trace since the latest code |
| CodeStore.GoneForAReason | GoMailServer/internal/store/codestore.go:68-105 | the latest code of an address is absent only if it was accepted, met five wrong tries, or was found expired by a clean-up or by a try for that address |
| CodeStore.OnFileExactly | GoMailServer/internal/store/codestore.go:45-105 | an entry is stored for an address if and only if its latest code was neither accepted, nor given up after five wrong tries, nor found expired; whatever the clock does |
| CodeStore.AcceptedExactly | GoMailServer/internal/store/codestore.go:68-92 | a try is accepted if and only if it is the latest code of the address, that code is still good in this sense, and its time has not passed; whatever the clock does |
| CodeStore.AcceptedInTime | GoMailServer/internal/store/codestore.go:45-105 | when the clock does not go back, a try meeting the address's latest code is accepted if and only if it is that code, in time, not accepted before, after fewer than five wrong tries, whatever clean-ups ran |
| CodeStore.AcceptedOnce | GoMailServer/internal/store/codestore.go:89-91 | no generated code is accepted twice |
| CodeStore.CooldownExactly | GoMailServer/internal/store/codestore.go:49-56 | a code is refused if and only if the latest code of the address is still good and was handed out less than the cooldown ago |

## Left out

- Fixed widths of `int`, `int64_t` and `size_t` in dates, seconds, microseconds, buffer sizes and ids: these are unbounded integers here; frame lengths, checksums, `convert` and buffer integers have their widths.
- Calendar.DayNumberRoundTrip: some smaller numbers, such as -32074 to -32045, also come back, from fields that are no date, such as a day 0 or below; which of them do is not characterised.
- TimeZone.SecondRoundTrip: seconds before midnight of 1 March -4800 are left out, as they do not break into a date of the calendar; the seconds of such days come back all the same.
- TimeZone.ToLocalRoundTrip: local readings before that midnight are left out for the same reason.
- Calendar.DayNumberCountsDays: starts on 1 March -4800, where the count begins to hold for every step.
- Calendar.DifferenceCountsDays: starts there too.
- TZif file reading, abbreviations and the `TZ` string: tables are given, with the offsets and indices they hold.
- Calendar text output, weekdays and `struct tm`.
- TimerQueue.TimerQueue.HandleRead: its callbacks are given as lists of the queue's own operations; one clock stands for both the monotonic clock of the timerfd and the time of day, and no order of clock readings is assumed.
- The timers live in a map from addresses to timers rather than in objects, since objects of the language are never freed; an interval is whole microseconds with a separate repeat flag, since a tiny positive one truncates to zero.
- `Buffer::swap`, `findEOL` and `retrieveUntil`; the HTTP parser and the codec run on the buffer itself, while the connection's output buffer is the byte queue that the buffer refines.
- Codec: the message library is two functions with one inverse law and a size, and a raw-message hook that may veto a frame; logging of errors.
- `startRead`, `stopRead`, `forceCloseWithDelay` (which sets the state and leaves the closing to a timer), the error callback (it only logs), and the input buffer of a connection; what a message callback calls is any interleaving of sends, shutdowns and forced closes.
- TcpConnection: `connectDestroyed` is not an event of a run, so that runs go on as if the channel stayed registered; a call on the loop's thread is one action, since what other threads can do meanwhile, setting the state to disconnecting and queueing functors, has the same effect before or after it, up to the order of the functors queued meanwhile; the memory order of the unlocked state.
- EventLoop: which channels are active and what their handlers do, apart from pushes and quits; the poll time-out.
- AsyncLogging: the text of the drop notice, file rolling, flushing and the time-out of the wait.
- Pollers: an epoll or poll entry with an empty mask, which may still report errors, counts as not watched; the growth of the epoll event array; failures of epoll_ctl.
- Http.HttpContext.ParseRequest: calls after completion or refusal; the receive time; a body.
- Floating point: `formatSI` is modelled with exact decimal rounding, in which the direction of each tie is arbitrary; `formatIEC` and printing of doubles.
- UserManager: the other profile fields, passwords, status, chat history and friend requests; the interleaving of table writes and cache updates by concurrent callers; a registration argument that already carries friends.
- UserManager.UserManager.AddUser: takes the name and the mail address alone, as no modelled property reads the other fields.
- CodeStore: the random digits, the background goroutine's schedule and the mail itself.
- Protocol handlers, gRPC clients, the Go HTTP server, caches in Redis, message queues, configuration and generated code: one-branch facts that would add only easy members.
