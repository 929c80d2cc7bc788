# Home Bus driver and packet stack

A model of the MAX22x88 Home Bus driver and of the example packet stack that runs on it, with proofs about
whole runs. The data path is a stack of machines that undo each other:

packet → bytes → 22-level frames → line levels, one every second timer interrupt → samples → bytes → ring buffer → packet

Every `.dfy` file holds one module.

| file | about |
|---|---|
| `bytes.dfy`, `bitbang_helper.dfy`, `frame.dfy` | bytes and bits, the parity table, bit stuffing, the frame of one byte |
| `transmitter.dfy` | the transmit half of the timer interrupt over a whole transmission |
| `rx_state_machine.dfy`, `receiver.dfy` | the frame decoder as an object, as a value, and over every event sequence |
| `ring_buffer.dfy`, `fifo.dfy` | the ring buffer as a value, and the queue object that works on a byte array in place |
| `spsc.dfy` | pushes from an interrupt between the memory accesses of a consumer that pops, clears or reads |
| `calls.dfy` | such a pop, clear or read from its call to its return: what it has removed, and after how many accesses |
| `read_runs.dfy` | exactly when a read of several elements is right, whatever is pushed inside it |
| `device.dfy`, `bitbang.dfy` | what one interrupt or call does to a device as a value, and the driver object |
| `node.dfy`, `write_run.dfy`, `receive_run.dfy` | one device over whole runs, with interrupts between any two stores of the main code; a whole write and a whole frame as runs |
| `deafness.dfy` | when a device never receives again, and what makes it so |
| `writes.dfy` | writes on a device that nobody guards: they end, and exactly when they read past their data |
| `homebus.dfy` | the packet printer and the byte-at-a-time parser |
| `link.dfy`, `network.dfy` | one direction of the line; two devices that send to each other, and their invariant |
| `delivery.dfy`, `arrival.dfy` | what holds in every reachable state of the two; progress, and that everything arrives |
| `exchange.dfy` | a request and the response sent from inside the callback that gets it |

The objects of the source are classes here (`BitbangSm`, `Queue`, `Hbs`, `Max22x88`). Their methods are proved
against functions on values, and the theorems are about those functions. `Device` has the fields of the driver
and of the bitbang context, with the two interrupt sources (timer running, falling edges on DOUT) as plain
fields. `Node` adds where the main code is inside a write, read or flush, and a history of what was received, taken out
and sent, which no code reads.

The main results:

* **Everything arrives** (`Arrival.EverythingArrives`, `Arrival.ItDoesRunOut`): two devices send packets to each other,
  half duplex. After any interleaving of packets, stores of both main loops, interrupts on both sides and reads,
  every schedule without new packets ends after a bounded number of steps. Unless a receive buffer overflowed, and
  it does not if the bytes sent to it fit, each callback then got exactly the packets addressed to it, in order,
  and both parsers and decoders are back in their start states.
* **The exchange of the example program** (`Exchange.RequestAndResponseArrive`, `Exchange.TurnAround`): the response
  is sent from inside the callback that gets the request, possibly while the requester is still in its write. It
  arrives if its first level is driven after the requester has enabled its edge interrupt again; driven before
  that, the level raises no interrupt (`Exchange.HastyAnswerIsMissed`).
* **The line** (`Delivery.LineRoundTrip`, `Delivery.NoCollisions`): at every moment of such a run and in both
  directions, completed frames are the sent bytes in order without error flags, each began with one accepted
  edge, and a sending device reads back exactly the levels it drives.
* **Bus modes** (`Node.BusModeSafety`): if writes disable the edge interrupt only while no frame is in progress,
  frame-in-progress and bus state always agree, no internal error is counted, and no transmit interrupt reads past
  the words of its write.
* **Unguarded writes** (`Writes.EveryWriteEnds`, `Writes.ReadsPastExactlyWhen`): whatever the interrupts before and
  inside it did, a write ends within a bound known at its call. Its transmit interrupts can read past the end of
  `data_to_tx` if and only if, as it stores TX to `bus_state`, the timer is running and an earlier, longer write has
  left its index beyond the new data.
* **Deafness** (`Deafness.DeafMeansHearsNothing`, `Deafness.DeafExactlyByLoss`): without that guard, a device can
  reach states from which nothing that can still happen makes it receive again. These are exactly the states after
  a frame was lost in one of four ways: a store to `bus_state` at the start or at the end of a write, the timer
  stop at its end, or a rejected edge, each during a frame. The caller's guard alone excludes all four
  (`Deafness.QuietNeverLoses`).
* **Conservation** (`Node.Conservation`, `Node.ErrorsAreCounted`): frames completed are those valid, overflowed or bad,
  each error counter counts the frames with its error, internal errors are the unexpected interrupts
  (`Node.InternalErrorsAreCounted`), and valid bytes are those read, flushed or still queued.
* **Lock-free queue** (`Spsc.RefinesAtomicQueue`, `Calls.PopRemovesOldest`, `Calls.ClearRemovesAll`): wherever pushes fall
  inside a pop or clear, nothing is lost, duplicated or reordered; a pop returns after a fixed number of accesses
  having removed exactly the oldest element of its call, a clear at least all that was queued at its call.
* **Reads of several elements** (`ReadRuns.AlwaysRightExactlyWhen`, `ReadRuns.ExceedsExactlyWhen`): such a read can
  report and copy more elements than it was asked for, and so write past the end of its destination, if and only
  if the queue holds fewer than that at the call and has room for more. Whatever is pushed inside it, it keeps
  within the request and hands out the oldest elements in order if and only if, at the call, the queue holds the
  whole request; or the request is at least the capacity, and the queue is full, or its indices are wrapped, or
  its head is at the front.
* **Transmission length** (`Transmitter.ExactTransmission`, `Transmitter.OnlyTheFirstWriteIsShort`): the first write of
  n bytes spins for 44n interrupts and every later one for 44n + 1, because a flag outlives the transmission.
* **Parser and printer** (`Homebus.ParserIsStreamParse`, `Homebus.RoundTripExactlyWhenLengthFits`): the parser is a pure
  parse of the stream, and the printer's packets come back as sent exactly when the payload has at most 255 bytes.

Where the code and its comments disagree, the model follows the code:

* src/max22x88_bitbang_rx_state_machine.c:23-24 puts the parity and stop bits at positions 19 and 21, which are
  off-duty samples, so those two checks are never reached. The positions are parameters (`Layout`): theorems hold
  for the coded ones and, where they say so, for 18 and 20, where the transmitter puts the bits.
* inc/private/bitbang_helper.h:38 promises an even number of zeroes; the table gives an odd one
  (`BitbangHelper.ZeroesAreAlwaysOdd`) and an even number of ones.
* inc/private/fifo.h:104 promises that popping from an empty queue reports it; with a NULL destination it reports
  success and makes the queue look full (`Fifo.Queue.Pop`).
* inc/private/fifo.h:152 promises that reading several elements from an empty queue reports it; the code reports
  success with none read (`Fifo.Queue.ReadN`).
* inc/private/fifo.h:149 gives `len` as the size of the destination; src/fifo.c:192-193 asks twice for the length of
  the queue, and a push between the two can make the count larger than `len` (`ReadRuns.ExceedsExactlyWhen`,
  `ReadRuns.ReadOfOneHandsOutTwo`).
* src/fifo.c:36 compares with twice the element size, which wraps around in `size_t`: a queue without room for any
  element is refused only if its element size is at most half of SIZE_MAX (`Fifo.EmptyCapacityIsAccepted`).

Assumptions on the environment, each a guard of a step: interrupts do not nest; a timer interrupt comes only
while the timer runs, and an edge interrupt only while it is enabled; the main code leaves its spin and stops the
timer before the next timer interrupt (`Node.Timely`); between two devices, level k is sampled after it is driven
and before level k + 1 is, and a device drives only while the other one is not between disabling and enabling its
edge interrupt in a write (`Network.InOrder`, needed by `Exchange.TurnAround`); a device begins to send only when it
has received all that the other one was given to send (`Network.LineIsFree`), which it has when its callback gets
the last packet (`Exchange.AnswerFromCallback`); both stacks register their callbacks before they read
(`Network.FreshNetwork`); nothing is deinitialised during a run.

## Model

| member | source | states |
|---|---|---|
| BitbangHelper.StuffedBit | src/bitbang_helper.c:20-41 | bit k of a stuffed word is 1 for odd k and bit k/2 of the value for even k |
| BitbangHelper.ParityOfOnes | src/bitbang_helper.c:43-65 | the table entry of every byte is the parity of its one-bits |
| BitbangHelper.ZeroesAreAlwaysOdd | inc/private/bitbang_helper.h:38-44 | the header's claim about zeroes is false for every byte |
| Frame.FormatLayout | src/max22x88_bitbang.c:393-403 | the shifts and masks give the frame layout: low start bit, data least significant first, parity, high stop bit, each followed by a high level |
| Frame.FormattedLevels | src/max22x88_bitbang.c:393-403 | the 22 levels taken from a formatted word are the frame of its byte |
| Transmitter.ExactTransmission | src/max22x88_bitbang.c:203-233 | a write of n bytes drives exactly its 22n levels in order, and the interrupt that ends it is number 44n, or 44n + 1 with the flag left over |
| Transmitter.DrivenInOrder | src/max22x88_bitbang.c:217-231 | at any point of a transmission, the levels driven are the next ones of the words, none skipped or repeated |
| Transmitter.TicksToTheEnd | src/max22x88_bitbang.c:205-208 | the words are exhausted after exactly the computed number of interrupts, not before |
| Transmitter.PinShowsLastLevel | src/max22x88_bitbang.c:210-226 | at any point of a transmission, DIN and the level a comparison expects to read back are the last level driven |
| Transmitter.TransmissionLeaves | src/max22x88_bitbang.c:224-231 | after a write with data the collation flag is set and DIN is high |
| Transmitter.FlagAfterWrites | src/max22x88_bitbang.c:179-185 | the flag is set exactly if some earlier write had data; starting a transmission never clears it |
| Transmitter.OnlyTheFirstWriteIsShort | src/max22x88_bitbang.c:405-428 | after initialisation, the first write of n bytes spins for 44n interrupts and every later one for 44n + 1 |
| RxStateMachine.BitbangSm.constructor | src/max22x88_bitbang_rx_state_machine.c:26-35 | a new machine waits for a start edge with no sample taken |
| RxStateMachine.BitbangSm.Init | src/max22x88_bitbang_rx_state_machine.c:26-35 | the machine is back in its initial state |
| RxStateMachine.BitbangSm.EventStartBitEdge | src/max22x88_bitbang_rx_state_machine.c:37-45 | accepted exactly if no frame is in progress; a rejected edge changes nothing |
| RxStateMachine.BitbangSm.EventEdge | src/max22x88_bitbang_rx_state_machine.c:52-59 | accepted exactly if a frame is in progress and an edge is due |
| RxStateMachine.BitbangSm.Absorb | src/max22x88_bitbang_rx_state_machine.c:67-94 | off-duty samples are exactly the odd ones, so that the parity and stop branches are taken only at even positions; data and flags stay equal to the meaning of all samples so far |
| RxStateMachine.BitbangSm.EventSample | src/max22x88_bitbang_rx_state_machine.c:61-105 | a sample is accepted exactly when due; the 22nd gives the decoded frame and resets the machine |
| RxStateMachine.DecodedBit | src/max22x88_bitbang_rx_state_machine.c:87-92 | bit i of the collected byte is sample 2 + 2i |
| RxStateMachine.OrBitOutside | src/max22x88_bitbang_rx_state_machine.c:88-90 | a shift by 8 or more is lost in the byte, so the parity sample does not damage the data |
| ReceiverRuns.ReceiverDecodesChunks | src/max22x88_bitbang_rx_state_machine.c:26-105 | for every event sequence, the results are the decodings of consecutive chunks of 22 accepted samples |
| ReceiverRuns.ChunkAt | src/max22x88_bitbang_rx_state_machine.c:95-103 | result i is the decoding of accepted samples 22i to 22i + 21 |
| ReceiverRuns.CodedMeaning | src/max22x88_bitbang_rx_state_machine.c:67-94 | as coded: the byte is the weighted sum of the data samples, START says sample 0 is high, OFFDUTY says an odd sample is low, the other flags are never set |
| ReceiverRuns.CodedIgnoresParityAndStop | src/max22x88_bitbang_rx_state_machine.c:78-86 | as coded, samples 18 and 20 have no influence on the result |
| ReceiverRuns.MeantAcceptsExactlyFrames | src/max22x88_bitbang_rx_state_machine.c:78-86 | with positions 18 and 20, a frame has no error if and only if it is what the transmitter sends for its byte |
| ReceiverRuns.CodedAcceptsExactly | src/max22x88_bitbang_rx_state_machine.c:67-94 | as coded, a frame has no error if and only if it is that up to the parity and stop bits |
| ReceiverRuns.FrameRoundTrip | src/max22x88_bitbang.c:393-403 | a transmitted frame decodes to its byte with no flag, with the coded and with the meant positions |
| ReceiverRuns.OneWrongDataBit | src/max22x88_bitbang_rx_state_machine.c:78-92 | one flipped data level is always caught with the meant positions and, as coded, always delivered as a wrong byte without flags |
| RingBuffer.NextSlot | src/fifo.c:22-26 | advancing an index moves it to the next slot, around at the end, without leaving the buffer size |
| RingBuffer.AlignedIsMultiple | src/fifo.c:22-26 | the indices kept by the queue are the multiples of the element size |
| RingBuffer.EmptyAndFull | src/fifo.c:113-128 | the two index comparisons decide exactly whether the queue is empty and whether it is at capacity |
| RingBuffer.LenInBytes | src/fifo.c:139-151 | the byte distance of the indices, divided by the element size, is the number of elements |
| RingBuffer.PushAppends | src/fifo.c:91-94 | storing at the head of a queue that is not full appends one element, across the end of the buffer too |
| RingBuffer.AdvanceRemovesOldest | src/fifo.c:107-109 | advancing the tail of a nonempty queue removes exactly the oldest element |
| RingBuffer.AdvanceOnEmptyFills | src/fifo.c:104-109 | advancing the tail of an empty queue makes its length its capacity, at every position and capacity |
| RingBuffer.SkipRemoves | src/fifo.c:162-163 | moving the tail k elements ahead removes the k oldest |
| RingBuffer.CopyIsRightExactlyWhen | src/fifo.c:196-208 | a two-segment copy from indices read earlier takes every element from its own slot exactly when they were wrapped, or the count lay in sequence, or the head was at the front |
| Fifo.SizingIsExact | src/fifo.c:28-69 | the checks, with the product that wraps around, accept exactly the sizes whose buffer fits size_t and that have room for an element, and every capacity 0 with an element size above half of SIZE_MAX |
| Fifo.EmptyCapacityIsAccepted | src/fifo.c:36-38 | concrete element sizes with which a queue of capacity 0 is accepted, and others with which it is refused |
| Fifo.Init | src/fifo.c:48-69 | a queue of exactly the requested capacity, empty, or the error, for every pair of sizes |
| Fifo.Queue.constructor | src/fifo.c:40-45 | the buffer is set up as an empty queue of one slot less than it has room for |
| Fifo.Queue.IsEmpty | src/fifo.c:113-119 | whether the queue has no elements |
| Fifo.Queue.IsFull | src/fifo.c:121-128 | whether the queue is at capacity |
| Fifo.Queue.CapacityOf | src/fifo.c:130-137 | the capacity |
| Fifo.Queue.Len | src/fifo.c:139-151 | the number of elements |
| Fifo.Queue.Push | src/fifo.c:82-95 | appends one element, or reports a full queue exactly at capacity and changes nothing |
| Fifo.Queue.Read | src/fifo.c:167-178 | copies the oldest element without removing it, or reports an empty queue and leaves the destination alone |
| Fifo.Queue.Pop | src/fifo.c:97-111 | with a destination, removes and returns the oldest element or reports an empty queue; with NULL, drops it, or on an empty queue reports success and makes the queue look full |
| Fifo.Queue.Clear | src/fifo.c:153-165 | empties the queue and reports whether it already was empty |
| Fifo.Queue.ReadN | src/fifo.c:180-214 | copies exactly the oldest min(len, Len) elements in order, writes nothing beyond them and removes none |
| Spsc.RemovedIsPrefixOfPushed | src/fifo.c:82-111 | in every interleaving of pushes with the steps of pops and clears, what was removed is a prefix of what was pushed and the queue holds the rest |
| Spsc.RefinesAtomicQueue | src/fifo.c:82-165 | every interleaving is a sequence of one-step operations on a bounded queue: a push appends if there is room, a pop and a clear remove with their last store; that a whole call does remove is stated by the rows on `Calls` |
| Spsc.TestAnswers | src/fifo.c:113-119 | a pop or clear finds the queue empty exactly if it was when it read head |
| Spsc.FinishPop | src/fifo.c:103-110 | the bytes copied under pushes are the oldest element, which the last step removes |
| Spsc.FinishClear | src/fifo.c:153-165 | a clear removes exactly what was pushed before it read head; later pushes survive |
| Spsc.PushSparesCopiedSlot | src/fifo.c:88-93 | a push never changes the slot a pop is copying |
| Calls.PopRemovesOldest | src/fifo.c:97-111 | for every queue and whatever is pushed inside it, a pop returns after exactly its test, or its test, one access for each byte and its store; it has then removed exactly the element that was the oldest at the call, or nothing if there was none, and nothing before |
| Calls.ClearRemovesAll | src/fifo.c:153-165 | likewise a clear returns after exactly its test, or its test, its load of head and its store; it has then removed at least all that was queued at the call, and nothing before |
| Calls.ReadIsComplete | src/fifo.c:195-213 | a read returns exactly when it has handed out all it settled on |
| Calls.ReadsAreBounded | src/fifo.c:180-214 | whatever is pushed inside it, a read removes nothing and takes at most its tests and one access for each element of the capacity |
| Calls.CallReturns | src/fifo.c:97-214 | from every state inside a call, its own accesses lead to its return |
| ReadRuns.AlwaysRightExactlyWhen | src/fifo.c:180-214 | a read keeps within the request, hands out the oldest elements in order and settles on the request or at least on all that was queued, at every moment and whatever is pushed inside it, if and only if at the call the queue holds the request, or the request is at least the capacity and the queue is full, wrapped or has its head at the front |
| ReadRuns.ExceedsExactlyWhen | src/fifo.c:192-194 | some pushes inside a read make its count larger than the request if and only if at the call the queue holds less than the request and its capacity is more |
| ReadRuns.ReadsInEveryRun | src/fifo.c:180-214 | both conditions are exact for a read at the end of any run of pushes, pops, clears and reads |
| ReadRuns.ReadInAnyRun | src/fifo.c:180-214 | at any moment of any run from an empty queue: under the condition, a read has handed out no more than the request and exactly the oldest elements pushed and not removed; in any case those that lay in sequence, and it settles on the request or at least on all that was queued |
| ReadRuns.InOwnSlotsExactlyWhen | src/fifo.c:196-208 | every element is looked for in its own slot if and only if the indices were wrapped, the count lay in sequence, or the head was at the front |
| ReadRuns.WrongElement | src/fifo.c:205-208 | otherwise the first element pushed since is taken from slot 0, which is not its own, and is right if and only if the two slots hold the same bytes |
| ReadRuns.ReadOfOneHandsOutTwo | src/fifo.c:192-194 | a concrete run on an empty queue of capacity three, in which a read of one element settles on two |
| ReadRuns.ReadOfThreeGoesWrong | src/fifo.c:205-208 | a concrete run in which a read of three, from a queue of capacity three that holds one, hands out a wrong element |
| Bitbang.Max22x88.constructor | src/max22x88_bitbang.c:343-385 | the device after initialisation |
| Bitbang.InitBitbang | src/max22x88.c:49-84 | an internal error if the buffer cannot be sized, a user function error without parameters or for a second driver (src/max22x88_bitbang.c:363), and otherwise an initialised driver with the requested capacity |
| Bitbang.Max22x88.FallingEdgeIntCallback | src/max22x88_bitbang.c:156-177 | an accepted edge enters RX with edges disabled and the timer running; a rejected one stops the timer and nothing else |
| Bitbang.Max22x88.HandleInterruptTx | src/max22x88_bitbang.c:203-233 | one transmit interrupt is one step of the transmitter, with any level for a read past the end of data_to_tx |
| Bitbang.Max22x88.HandleInterruptRx | src/max22x88_bitbang.c:235-279 | one receive interrupt is one step of the receiver, with the byte queued and the outcome counted when the frame completes |
| Bitbang.Max22x88.SignalTimerIsr | src/max22x88_bitbang.c:281-304 | the interrupt does what the bus state says, and counts an internal error otherwise; it is the timer interrupt of every run, by the row on `Node.TickIsTimerTick` |
| Bitbang.Max22x88.LogBadFrame | src/max22x88_bitbang.c:257-269 | a bad frame is counted once as bad and once for each of its errors |
| Bitbang.Max22x88.RestartRxing | src/max22x88_bitbang.c:312-324 | idle, timer stopped, edges enabled |
| Bitbang.Max22x88.DataReceived | src/max22x88.c:191-209 | the byte is queued, or full is reported exactly at capacity |
| Bitbang.Max22x88.FormatData | src/max22x88_bitbang.c:409-418 | the loop leaves exactly the frames of the bytes |
| Bitbang.Max22x88.StartTransmission | src/max22x88_bitbang.c:179-185 | TX from the first bit of the first word, with the collation flag as it was |
| Bitbang.Max22x88.Spin | src/max22x88_bitbang.c:422-423 | the spin, entered with the transmitter enabled and the edge interrupt disabled, ends after exactly the computed number of interrupts, which drove exactly the levels of the data |
| Bitbang.Max22x88.WriteBitbang | src/max22x88_bitbang.c:405-428 | a write, with the transmitter enabled, drives exactly the levels of its data and leaves the device idle and listening, nothing but the transmitter changed |
| Bitbang.Max22x88.Transmit | src/max22x88.c:109-133 | rejects missing or empty data without effect; otherwise a write, which needs RST low, with RST high again after it |
| Bitbang.Max22x88.Write | src/max22x88.c:135-142 | an internal error without effect unless the transmitter is enabled |
| Bitbang.Max22x88.SetTxState | src/max22x88.c:95-107 | the state and the RST line, which is low while transmitting is enabled |
| Bitbang.Max22x88.Read | src/max22x88.c:144-162 | hands out the oldest byte and removes it, nothing else changed, or reports that there is none and changes nothing; a NULL destination drops the oldest byte, or on an empty queue makes it look full |
| Bitbang.Max22x88.FlushRx | src/max22x88.c:164-180 | empties the queue and always reports success |
| Bitbang.Max22x88.IsAvailable | src/max22x88.c:182-189 | whether there is a byte to read |
| Node.TickIsTimerTick | src/max22x88_bitbang.c:281-304 | the timer interrupt of a run changes the device as signal_timer_isr does |
| Node.ReadIsARun | src/max22x88.c:144-162 | an uninterrupted read of a run removes the oldest byte and nothing else, as `Bitbang.Max22x88.Read` does, or finds the queue empty |
| Node.FlushIsARun | src/max22x88.c:164-180 | an uninterrupted flush of a run removes all bytes, as `Bitbang.Max22x88.FlushRx` does |
| Node.ReadsPastExactlyWhenItMatters | src/max22x88_bitbang.c:217-218 | a transmit interrupt is about to read past the end of data_to_tx if and only if one can come and its effect depends on what is found there |
| Node.BusModeSafety | src/max22x88_bitbang.c:156-324 | under the guards, in every reachable state a frame is in progress exactly in RX, RX and TX have edges disabled, no internal error was counted, and no transmit interrupt is about to read past the end of data_to_tx |
| Node.RxTicksAreAccepted | src/max22x88_bitbang.c:235-279 | under the guards every receive interrupt is an accepted sample or an accepted edge |
| Deafness.DeafMeansHearsNothing | src/max22x88_bitbang.c:156-324 | in every state a device can reach without any guard, it is deaf if and only if nothing that can still happen makes it accept an edge, take a sample or queue a byte |
| Deafness.DeafExactlyByLoss | src/max22x88_bitbang.c:318-324 | a device is deaf after a run if and only if during a frame the main code stored to bus_state or stopped the timer, or an edge was rejected |
| Deafness.DeafnessIsAbsorbing | src/max22x88_bitbang_rx_state_machine.c:37-45 | a deaf device stays so in every possible continuation, and takes no sample, completes no frame and queues no byte |
| Deafness.HearsAgain | src/max22x88_bitbang.c:156-177 | as long as no frame was lost, some possible continuation is heard |
| Deafness.RejectedEdgeDeafens | src/max22x88_bitbang.c:165-169 | a run from initialisation to deafness in which no store to bus_state hits a frame: the second of two edges at the end of a write stops the timer |
| Deafness.QuietNeverLoses | src/max22x88_bitbang.c:420-424 | from initialisation on (`Deafness.FreshIsAttentive`), if every write disables the interrupt only while no frame is in progress, no frame is lost and the device is never deaf, whenever the main code leaves its spins and stops its timers |
| Deafness.QuietAtTheCallIsNotEnough | src/max22x88_bitbang.c:405-421 | a run in which no frame is in progress at the call and the device still ends up deaf |
| Writes.WritesAreBounded | src/max22x88_bitbang.c:405-428 | on a device in any reachable state, deaf or not, the stores and spinning interrupts of the write in progress stay within a bound, whatever other interrupts come |
| Writes.EveryWriteEnds | src/max22x88_bitbang.c:420-426 | in every state that any possible run reaches inside a write: that bound, and a continuation that returns from it |
| Writes.ReadsPastExactlyWhen | src/max22x88_bitbang.c:203-233 | in every run, some continuation of a write reads past the end of data_to_tx if and only if, as it stores TX to bus_state, the timer is running and the index an earlier write left is larger than the new length |
| Writes.NoLossReadsInside | src/max22x88_bitbang.c:203-233 | as long as no frame was lost, no transmit interrupt reads past the end, guarded or not |
| Writes.ShorterWriteReadsPast | src/max22x88_bitbang.c:179-185 | a run from initialisation for any data and any shorter data: write the first, let a frame begin, call the write of the second, and an interrupt reads past its end |
| Node.Conservation | src/max22x88_bitbang.c:243-271 | in every run, with interrupts inside reads and flushes: frames = valid + overflowed + bad; valid bytes = read + flushed + queued, leaving in the order they came |
| Node.ConservedClear | src/fifo.c:153-165 | a flush removes what was queued when it read head, and keeps what was queued since |
| Node.ConservedPop | src/fifo.c:97-111 | a read removes the oldest byte, however many were queued since its test |
| Node.ErrorsAreCounted | src/max22x88_bitbang.c:256-270 | in every run each error counter is the number of completed frames with that error |
| Node.InternalErrorsAreCounted | src/max22x88_bitbang.c:272-303 | in every run the internal errors counted are exactly the timer interrupts outside TX that were neither an accepted sample nor an accepted edge |
| Node.CodedErrorCounters | src/max22x88_bitbang.c:257-269 | as coded, in every run PARITY and STOP stay 0 and BAD <= OFFDUTY + START <= 2 BAD |
| Node.FramesDecodeSamples | src/max22x88_bitbang.c:235-279 | in every run, completed frames decode consecutive chunks of the samples taken, one accepted edge each |
| WriteRun.WriteIsARun | src/max22x88_bitbang.c:405-428 | the single stores and interrupts of an undisturbed write, within the guards, leave what the write as a whole leaves |
| ReceiveRun.FrameIsARun | src/max22x88_bitbang.c:235-279 | an edge between frames and 43 timer interrupts, whatever they find on the line, take exactly every second level as a sample, from the first on; the decoded frame is queued or counted, and the device listens again |
| ReceiveRun.ByteIsARun | src/max22x88_bitbang.c:156-279 | if those levels are the frame of a byte, exactly that byte is queued, provided there is room |
| Homebus.Hbs.constructor | examples/two_nodes/stack/src/homebus.c:34-46 | a stack waiting for the first byte of a packet |
| Homebus.Hbs.RegisterRxCb | examples/two_nodes/stack/src/homebus.c:96-104 | only the presence of a callback changes |
| Homebus.Hbs.Received | examples/two_nodes/stack/src/homebus.c:56-94 | one byte extends the pending packet or completes it; what the callback finds in rx_packet is then the packet of the bytes received; its failure is passed on; the data index stays below the length |
| Homebus.Hbs.ProcessPacket | examples/two_nodes/stack/src/homebus.c:19-54 | if it is for this node, the packet in the fields is delivered as it is, or counted if there is no callback; any other is dropped |
| Homebus.Hbs.Send | examples/two_nodes/stack/src/homebus.c:106-128 | the errors in their order; otherwise exactly header, length modulo 256 and payload are handed over |
| Homebus.ParserIsStreamParse | examples/two_nodes/stack/src/homebus.c:56-94 | feeding any stream is parsing it into complete packets and a tail; every packet for the node is handled once, in order |
| Homebus.ParseSerialized | examples/two_nodes/stack/src/homebus.c:118-127 | for any payload length L, the first packet read carries the first L mod 256 bytes and the rest is read as a new stream |
| Homebus.RoundTripExactlyWhenLengthFits | examples/two_nodes/stack/src/homebus.c:106-128 | a sent packet is read back as itself with nothing left over if and only if L <= 255 |
| Homebus.StreamOfPackets | examples/two_nodes/stack/src/homebus.c:56-128 | packets sent one after the other are read back as those packets |
| Homebus.StreamIsRebuilt | examples/two_nodes/stack/src/homebus.c:56-94 | any stream is the printed form of the packets parsed from it, followed by the unparsed rest: no byte is skipped or used twice |
| Link.FallsAtFrameStart | src/max22x88_bitbang.c:393-403 | every frame begins with a low level after a high one |
| Link.CompletedFrame | src/max22x88_bitbang.c:235-279 | the frame completed by the last sample of a byte is that byte without errors |
| Link.SenderTick | src/max22x88_bitbang.c:203-233 | a transmit interrupt drives the next level of all that was ever written, or none |
| Network.ActOk | src/max22x88_bitbang.c:156-324 | every action of a device keeps the invariant of both senders, the line, both receivers, queues and stacks |
| Network.NetRunOk | src/max22x88_bitbang.c:156-324 | that invariant holds in every reachable state |
| Delivery.LineRoundTrip | src/max22x88_bitbang.c:203-279 | in every reachable state and both directions: driven levels are a prefix of the formatted bytes, completed frames are those bytes without errors, one edge each, and the decoder is initial between frames |
| Delivery.NoCollisions | src/max22x88_bitbang.c:210-215 | at any time one of the two has received all that the other was given to send; a sending device has the line to itself, hears none of its own edges, and every comparison reads back the level it drove last |
| Delivery.DeliveredIsPrefix | examples/two_nodes/main.c:120-126 | at any time and in both directions, unless the buffer overflowed, the packets delivered are the first of those sent to the node |
| Delivery.OverflowRun | src/max22x88.c:191-209 | a buffer can only have overflowed if more bytes were sent to it than it has room for |
| Arrival.Progress | src/max22x88_bitbang.c:405-428 | in every reachable state with anything left to do, some step is possible |
| Arrival.SchedulesAreBounded | src/max22x88_bitbang.c:405-428 | without new packets, every schedule is no longer than the work there is |
| Arrival.EverythingArrives | examples/two_nodes/main.c:112-127 | when nothing more can happen, both callbacks got exactly the packets for their node, in order, and parsers and decoders are in their start states |
| Arrival.ItDoesRunOut | src/max22x88_bitbang.c:405-428 | from every reachable state there is a schedule that gets there |
| Exchange.AnswerFromCallback | examples/two_nodes/main.c:107-111 | in every reachable state, a device whose callback has just got the last packet sent may send, whatever the other one is still doing |
| Exchange.RequestAndResponseArrive | examples/two_nodes/main.c:100-127 | from initialisation, for every schedule that brings a request to the other callback, even with the requester still in its write, and every schedule after the response that leaves nothing to do: each callback got exactly its packet, with the right fields |
| Exchange.TurnAround | src/max22x88_bitbang.c:420-426 | the line falls with the first level of a frame, and this raises the other device's interrupt if and only if that device is not between disabling and enabling it in a write of its own |
| Exchange.HastyAnswerIsMissed | src/max22x88_bitbang.c:420-426 | from initialisation, a run in which the callback answers at once and the first falling edge of its response raises no interrupt, because the requester is still in its write |
| Exchange.AnswerCanBeEarly | examples/two_nodes/main.c:107-111 | after any request there is a schedule by which its callback has got it and may answer while the requester is still in that part of its write |
| Exchange.TheExchangeHappens | examples/two_nodes/main.c:100-127 | from initialisation, schedules that complete the exchange exist |

## Left out

- Hardware: GPIO, timer, NVIC and DOUT interrupt registers and latching are foreign calls; pins and interrupt sources are plain fields, and an edge while its interrupt is disabled leaves no trace.
- Real timing: baud rate, compare values and the start-bit offset; only the order of driving and sampling is kept.
- Memory: malloc succeeds and nothing is freed or leaked, so the error paths of initialisation and the failed write that leaves `tx_state` true (src/max22x88.c:122-125) do not occur; Deinit and `_adi_fifo_Free` are not part of this model.
- NULL driver, queue and stack pointers, and registering a NULL callback: checks that only return an error code.
- `volatile` and memory ordering: main code and interrupts see each other's stores in order.
- `handle_collision` is empty in the code, so the level read back during a transmission has no effect.
- Counters: `error_log` and `unhandled_pkt_cnt` do not reach the end of their types.
- What a read past `data_to_tx` finds in memory: it is an arbitrary level.
- `examples/two_nodes/main.c`: everything but its loop that reads a byte and gives it to the stack.
- User code: the receive callback is only its answer `cbOk`, and the transmit callback the buffer it is handed and its answer `txResult`.
- Bitbang.Max22x88.BitbangLog: takes one of the eight codes, so the range test at src/max22x88_bitbang.c:433 has nothing to reject.
- Node.Next: the RST line and `tx_state` are fields of `Bitbang.Max22x88` only; a pop is its test and its store to tail, a clear its test, its load of head and its store; the copying in between is in `Spsc`. The discarding read is not a step of `Node`, see `Bitbang.Max22x88.Read`.
- Network.CanStep: both devices sending at once, which would need the collision handling the code does not have, and flushing the buffer of a connected device.
- Spsc.Next: a read of several elements copies element by element, not byte by byte; a push never changes a slot that holds an element.
