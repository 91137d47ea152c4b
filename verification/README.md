# Verification model of the sensor hub, the control board and the CoAP devices

This Dafny project models the firmware's decision-making code and proves what it promises: the AHT20 checksum
and measurement schedule, the message pipeline from the sensors to the Bluetooth frame, the AS201 byte-stream
framing, the control board (debouncer, idle timer, menu, incremental screen), the Thread poll period around a
provisioning request, and the LED resource of the CoAP server.

`dafny verify dfyconfig.toml` checks everything.

## How it is organised

Each part has a pure specification (a transition function, a polynomial, a picture drawn from blank, a fold
over the history) with its theorems, and beside it the imperative code (classes over arrays and fields, loops)
proved to compute exactly that specification.

| files | subject |
|---|---|
| `Gf2`, `Octets`, `Crc8`, `ErrorDetection`, `Aht20` | polynomials over GF(2), the checksum, what it detects, the sensor driver |
| `Pipeline`, `Ownership`, `PipelineHistory`, `Draining`, `Producer`, `Wakeup`, `FrameLaws` | interleaved steps of producers and consumer, the ownership invariant, whole-run facts, what a drain does, the sequential code, when the consumer wakes, the frames byte by byte |
| `Imu` | framing of the AS201 byte stream |
| `Keys`, `Episodes`, `SysTimer` | debouncer, a complete account of it on any sample stream, and cascaded counters |
| `Display`, `Oled`, `Glyphs`, `Utf8`, `Labels`, `Pages` | display memory, driver loops, font packing, glyph lookup, texts, pages as lists of rectangles |
| `Board`, `Moves`, `Menu`, `Screens`, `Idle`, `Session`, `Increments`, `ControlBoard` | the board as one state machine, the menu moves read off any of its runs, where keys lead, what the screen shows cell by cell, the pages that never time out, what a key press buys, what becomes of presses on the parameter pages, the threads' code |
| `Options`, `Copying` | an optional value, and copying into a buffer element by element |
| `PollPeriod`, `LedResource` | the CoAP client's poll period and the CoAP server's LEDs |

## What the source does that a reader may not expect

These are results of the model, each with its lemma.

- Two flipped bits 127 (or a multiple of 127) positions apart pass the checksum; all closer pairs are caught
  (`ErrorDetection.PairDetectedIff`). A seven-byte frame is too short for such a pair.
- A post that arrives before the consumer's wait is cleared by the wait, so a queued message need not wake the
  consumer: from the wait it sleeps exactly until some call posts and it is scheduled after that
  (`Wakeup.SleepsUntilPost`), and over every run a wake-up is pending exactly when a call has posted since the
  wait was entered (`Wakeup.PendingIffPostedSinceWait`). A temperature reading can stay queued unnoticed when
  it arrives before the first wait (`Wakeup.LostWakeup`) or between the last drain and the next wait
  (`Wakeup.LostAfterDrain`).
- A minute flag that was raised but not yet seen by the system thread survives a key press and undoes it at the
  next pass (`Session.StaleFlagReachable`); a press buys a full idle period exactly when no such flag is waiting
  (`Session.FullPeriodIffNoStaleFlag`).
- A DOWN press on a parameter page only marks an increment; the next redraw of a parameter page carries it out,
  once, on the page it draws. Two presses between redraws raise the parameter by one
  (`Increments.TwoPressesOneIncrement`); a press on the distance page can raise the brightness, after MENU
  (`Increments.StrayIncrement`) or, with no MENU, after an idle timeout that comes between press and redraw
  (`Increments.TimeoutStraysIncrement`). Over every run of the board the parameters are what the presses asked for
  exactly when every parameter was pressed as often, modulo its limit, as redraws carried a press out on its page
  (`Increments.RunFaithfulIff`; for a single redraw `Increments.RedrawFaithfulIff`).
- `val_to_str` takes its first digit from the ten-thousands, so the four digits read back as the number exactly
  below 1000 (`Pages.DigitsDecodeIff`); the parameters' limits keep them there.
- The flash reads of the key handler are commented out, so MENU on a parameter or parameter-confirmation page
  sets all five parameters to zero (part of `ControlBoard.Device.HandleShort`).
- The two stores of `poll_period_response_set` are not protected against `poll_period_restore`: a reply that
  writes the period back between them loses the original period for good, even when every reply answers a request
  of its own (`PollPeriod.LateReplyLosesPeriod`), and that is the only way to lose it
  (`PollPeriod.KeptIffNoIntrusion`).
- A PUT changes the stored LED state even when the pin driver refuses, and the requester then gets no response
  (`LedResource.RefusedCommandDisagrees`). State and pin agree exactly when the pin's level equals the last refused
  ON or OFF, or the level itself, turned over by the toggles refused since the driver last took a command
  (`LedResource.AgreementIff`).

## Assumptions

- `p_aht20_op` points to a zeroed structure; the source never gives it storage.
- Submitted payloads have the sizes the sensor threads use: AHT20 6, BMP280 7, HRBO 100, AS201 2 to 100 (proved
  of the framing code in `Imu.EveryFrameValid`), LD2410C any (no thread submits one).
- Key and screen threads run under one mutex, so each pass is one step. The system thread takes no mutex; its
  pass and the timer interrupt are taken to be atomic as well.
- The board's globals start as zero; the code that runs at power-on does not change them.
- A parsed PUT body has a nonnegative LED identifier; the device tree defines at most four LEDs.
- The poll period of the link is not zero (zero is the code's own mark for "nothing saved"), and the stack
  accepts both periods, as the source asserts.
- `CONFIG_OPENTHREAD_MTD_SED` is on, and so is every sensor's configuration option.
- Allocator answers, bus and stack answers, pin levels, received bytes and the order of steps are inputs, and
  every theorem holds for all of them.
- Bytes are `bv8`, or `Octet` (eight named bits) where the arithmetic is bitwise.

## Model

| member | source | states |
|---|---|---|
| Crc8.CrcIsRemainder | crs_demo/src/devices/src/crs_aht20_ts.c:22-38 | a byte is the checksum of a message of n bytes if and only if it is the remainder of M(x)x^8 + 0xFF(x)x^(8n) by x^8+x^5+x^4+1, for every message |
| Crc8.RegisterDivides | crs_demo/src/devices/src/crs_aht20_ts.c:26-36 | the shift register performs long division: there is a quotient, one coefficient per message bit, with the register as remainder |
| Crc8.CrcAffine | crs_demo/src/devices/src/crs_aht20_ts.c:22-38 | the checksum of the XOR of three messages of one length is the XOR of their checksums |
| Crc8.ResidueZero | crs_demo/src/devices/src/crs_aht20_ts.c:22-38 | a message followed by a byte leaves residue zero exactly when the byte is the message's checksum |
| Crc8.RegisterByte | crs_demo/src/devices/src/crs_aht20_ts.c:27-34 | XORing a byte into the register and shifting eight times equals feeding its bits one at a time |
| Octets.Order | crs_demo/src/devices/src/crs_aht20_ts.c:29-33 | the powers of x modulo the generator coincide exactly when the exponents differ by a multiple of 127 |
| Octets.ShiftsInjective | crs_demo/src/devices/src/crs_aht20_ts.c:28-34 | shifting loses no information: only zero shifts to zero, and equal results come from equal registers |
| Gf2.DivisionUnique | crs_demo/src/devices/src/crs_aht20_ts.c:22-38 | quotient and remainder of a polynomial division over GF(2) are unique |
| ErrorDetection.UndetectedIffMultiple | crs_demo/src/devices/src/crs_aht20_ts.c:59 | a damaged frame is accepted exactly when its error pattern is a polynomial multiple of the generator |
| ErrorDetection.UpToThreeFlipsDetected | crs_demo/src/devices/src/crs_aht20_ts.c:59 | one, two or three flipped bits in an accepted seven-byte frame are always noticed |
| ErrorDetection.OddErrorsDetected | crs_demo/src/devices/src/crs_aht20_ts.c:59 | every odd number of flipped bits is noticed, at any length |
| ErrorDetection.PairDetectedIff | crs_demo/src/devices/src/crs_aht20_ts.c:59 | two flipped bits are missed exactly when their distance is a multiple of 127, at any length |
| ErrorDetection.BurstsDetected | crs_demo/src/devices/src/crs_aht20_ts.c:59 | every burst within eight consecutive bits is noticed, at any length |
| Aht20.CheckCrc8 | crs_demo/src/devices/src/crs_aht20_ts.c:22-38 | the nested loops return the checksum of the first `length` bytes |
| Aht20.Sensor.Tick | crs_demo/src/devices/src/crs_aht20_ts.c:104-110 | after n ticks status and counter are a closed function of n mod 201, the counter never exceeds 2000, and the tick's effects are those of its place in the cycle |
| Aht20.Sensor.Handle | crs_demo/src/devices/src/crs_aht20_ts.c:40-93 | one call moves the machine to the closed form's next place, writes the trigger command, requests a frame or does nothing, as that place says |
| Aht20.Sensor.ReadFrame | crs_demo/src/devices/src/crs_aht20_ts.c:57-79 | a payload and the two raw fields come only from a frame that passes checksum and status test (`Aht20.StatusIsMasked` says which status bytes pass); a failed read changes nothing |
| Aht20.TraceCounts | crs_demo/src/devices/src/crs_aht20_ts.c:44-91 | over n ticks the number of triggers, reads and payloads: one trigger and one read per 201-tick cycle, one payload per good frame read |
| Aht20.FieldsPartition | crs_demo/src/devices/src/crs_aht20_ts.c:61-74 | the two 20-bit fields are the two halves of the 40 data bits, nothing lost or shared |
| Aht20.ReadingBytes | crs_demo/src/devices/src/crs_aht20_ts.c:61-74 | the forty data bits are the five data bytes, most significant first |
| Aht20.StatusIsMasked | crs_demo/src/devices/src/crs_aht20_ts.c:60 | a status byte is good exactly when its bits under the mask 0x98 read 0x18 |
| Aht20.ValueLaws | crs_demo/src/devices/src/crs_aht20_ts.c:61-74 | the value of a byte is its binary number: zero, doubling modulo 256, the low bit |
| Aht20.PayloadIff | crs_demo/src/devices/src/crs_aht20_ts.c:55-79 | a tick hands a payload on exactly at place 16 of its cycle, after a successful read whose seventh byte is the checksum of the first six and whose status passes the mask; the payload is those six bytes |
| Aht20.TriggerBytes | crs_demo/src/devices/src/crs_aht20_ts.c:46-51 | the only command written is AC 33 00 |
| Aht20.KnownChecksums | crs_demo/src/devices/src/crs_aht20_ts.c:24 | the register starts at 0xFF, and the checksum of BE EF is 0x92 |
| Aht20.DamagedFrameRejected | crs_demo/src/devices/src/crs_aht20_ts.c:59-60 | a good frame damaged in one to three bits is never turned into a reading |
| Ownership.StepKeeps | crs_demo/src/protocol/src/crs_producer.c:20-107 | every step of every thread keeps the invariant that each live block has exactly one owner and that nothing was freed twice or used after release |
| Ownership.PutKeeps | crs_demo/src/protocol/src/crs_producer.c:38-44 | putting a pointer on the queue, or failing to, hands both blocks over without leaving a second owner |
| Ownership.FetchKeeps | crs_demo/src/protocol/src/crs_producer.c:52-54 | taking a message off the queue hands both of its blocks to the consumer |
| PipelineHistory.RunFrom | crs_demo/src/protocol/src/crs_producer.c:20-107 | every run of producers and consumer keeps ownership, order, accounting and frame contents together |
| PipelineHistory.OwnershipConservation | crs_demo/src/protocol/src/crs_producer.c:20-44 | in every interleaving live blocks are exactly two per queued message plus those held by a step in progress, and no two threads hold the same block |
| PipelineHistory.QueueConservation | crs_demo/src/protocol/src/crs_producer.c:16-58 | dequeued then queued messages equal the accepted ones in order and unchanged; accepted, dropped and undecided add up to submitted; at most 100 queued; no fault |
| PipelineHistory.ContentsKept | crs_demo/src/protocol/src/crs_producer.c:31-36 | no step of any thread changes the event or bytes of a message while it is queued or being handled |
| PipelineHistory.FramesAreFunctionOfHistory | crs_demo/src/protocol/src/crs_producer.c:49-94 | the frames sent are a function of the dequeued history alone |
| PipelineHistory.HrboFrame | crs_demo/src/protocol/src/crs_producer.c:57-72 | a 100-byte heart-rate payload gives 55 AA 00 69, the latest two temperature and pressure bytes, the payload and A5 |
| FrameLaws.FramesSpelledOut | crs_demo/src/protocol/src/crs_producer.c:57-86 | over every run each heart-rate message acted on has its frame, in order, with bytes 0 to 3, 4 and 5, 6 and 7, 8 to 107 and 108 given one by one from the messages taken before it |
| FrameLaws.CapacityIsHundred | crs_demo/src/protocol/src/crs_producer.c:16-44 | a call whose allocations succeed is accepted exactly when fewer than 100 messages are queued, and only then posts its event |
| FrameLaws.QuietMessages | crs_demo/src/protocol/src/crs_producer.c:88-97 | an inertial message is copied to bytes 8 onward and sends nothing; a distance message changes nothing |
| PipelineHistory.ProcessRefines | crs_demo/src/protocol/src/crs_producer.c:56-98 | overwriting the static buffer message by message keeps exactly what the history says it must hold, and never runs off its end |
| Draining.DrainLeavesCallBlocks | crs_demo/src/protocol/src/crs_producer.c:135-139 | from any reachable state, with any number of calls suspended, a drain ends with an empty queue, everything accepted delivered, its frames sent, and a heap of exactly the blocks those calls hold, unchanged |
| Draining.PassRuns | crs_demo/src/protocol/src/crs_producer.c:135-138 | one pass delivers the oldest message, releases exactly its two blocks, and touches no other block and no suspended call |
| Producer.CallRuns | crs_demo/src/protocol/src/crs_producer.c:20-44 | an uninterrupted call either appends its message, with two new blocks and an event, or leaves heap, queue and events as they were |
| Wakeup.SleepsUntilPost | crs_demo/src/protocol/src/crs_producer.c:111-134 | over any run of any steps a consumer in the wait with nothing pending sleeps if and only if no call posts before a later scheduling of it; while it sleeps nothing leaves the queue |
| Wakeup.WakesIffPosted | crs_demo/src/protocol/src/crs_producer.c:111-135 | at any moment of such a sleep it wakes, if scheduled next, exactly when some call has posted |
| Wakeup.UnscheduledSleeps | crs_demo/src/protocol/src/crs_producer.c:111-135 | while it is not scheduled it stays in the wait, and the next scheduling wakes it exactly if a call posted meanwhile |
| Wakeup.WaitForgetsPosts | crs_demo/src/protocol/src/crs_producer.c:112-134 | whatever was posted or queued before, entering the wait leaves only later posts to wake it |
| Wakeup.PendingIffPostedSinceWait | crs_demo/src/protocol/src/crs_producer.c:109-141 | in every run from power-on that ends asleep, a wake-up is pending exactly when a call has posted since the wait was entered |
| Wakeup.PostBeforeWaitIsLost | crs_demo/src/protocol/src/crs_producer.c:20-44 | from any state about to wait, a call that completes first leaves its message queued, its post cleared and the consumer asleep |
| Wakeup.LostWakeup | crs_demo/src/protocol/src/crs_producer.c:111-135 | a run from power-on in which a 6-byte temperature reading is queued, the consumer is asleep and nothing is left to wake it |
| Wakeup.LostAfterDrain | crs_demo/src/protocol/src/crs_producer.c:135-139 | the same with the reading arriving between the last drain and the next wait, after an earlier reading was delivered |
| Draining.ProcessRuns | crs_demo/src/protocol/src/crs_producer.c:46-107 | fetch, handle and the two releases in one piece equal four steps of the machine |
| Producer.Node.CreateEventPayload | crs_demo/src/protocol/src/crs_producer.c:20-44 | the method over the real heap and queue is one uninterrupted call of the machine, whatever other calls are suspended |
| Producer.Node.Submit | crs_demo/src/protocol/src/crs_producer.c:22-43 | accepted exactly when both allocations succeed and the queue has room; otherwise heap, queue and events are unchanged |
| Producer.Node.Drain | crs_demo/src/protocol/src/crs_producer.c:135-139 | the loop empties the queue, delivers everything accepted, sends its frames, and leaves exactly the blocks of suspended calls |
| Producer.Node.ProcessApplicationMessage | crs_demo/src/protocol/src/crs_producer.c:46-107 | one message is taken, acted on and released as in the machine |
| Producer.Node.Handle | crs_demo/src/protocol/src/crs_producer.c:56-98 | the buffer array and the frames sent change as the specification of the message's kind says |
| Producer.Node.CopyPayload | crs_demo/src/protocol/src/crs_producer.c:65-67 | the copy loop replaces exactly the bytes from position 8 on |
| Imu.RoundTrip | crs_demo/src/devices/src/crs_as201_imu.c:32-48 | any list of nonempty payloads without 0xFD after their first byte, each followed by 0xFD, comes back in order as the first 99 bytes of each plus 0xFD |
| Imu.RoundTripInPieces | crs_demo/src/devices/src/crs_as201_imu.c:32-48 | the same however the stream is cut into interrupts |
| Imu.SplittingIrrelevant | crs_demo/src/devices/src/crs_as201_imu.c:32-48 | any stream parses alike however it is cut |
| Imu.EveryFrameValid | crs_demo/src/devices/src/crs_as201_imu.c:33-46 | on arbitrary input the position stays below 100 and every frame is 2 to 100 bytes ending in its only 0xFD after the first byte, a size the pipeline accepts |
| Imu.WholeIff | crs_demo/src/devices/src/crs_as201_imu.c:33-46 | a payload comes back whole exactly when it has 1 to 99 bytes and no 0xFD after the first |
| Imu.OneFrame | crs_demo/src/devices/src/crs_as201_imu.c:33-46 | one payload followed by 0xFD, byte for byte: its first 99 bytes and 0xFD |
| Imu.EveryStreamSplits | crs_demo/src/devices/src/crs_as201_imu.c:32-48 | every stream is a list of such payloads and an unfinished rest, and is parsed accordingly |
| Imu.Receiver.SerialCb | crs_demo/src/devices/src/crs_as201_imu.c:17-49 | the read loop over the static buffer is the parser, from and to the pending bytes |
| Keys.PressClosedForm | IoT/coap_control_board/src/coap_client_button.c:81-131 | from rest, n samples of a key and at least two zeros give floor((n+1)/103) long actions and one short dispatch of that key if and only if 2 <= n mod 103 <= 101, and end at rest |
| Keys.StrokesDecoded | IoT/coap_control_board/src/coap_client_button.c:142-243 | any sequence of such strokes is decoded stroke by stroke |
| Keys.ScannerBounds | IoT/coap_control_board/src/coap_client_button.c:92-111 | on arbitrary samples the counter never exceeds 100, in any state, and while confirming the lock is set exactly when the counter is positive |
| Keys.ShortPressJustified | IoT/coap_control_board/src/coap_client_button.c:112-126 | every short dispatch of a key is preceded by 2 to 101 consecutive samples of it closed by a zero, and is triggered by the next zero |
| Keys.LongPressJustified | IoT/coap_control_board/src/coap_client_button.c:103-108 | every long action follows 102 consecutive equal nonzero samples |
| Keys.NoRepeatsNoEvents | IoT/coap_control_board/src/coap_client_button.c:92-119 | a stream without two equal consecutive nonzero samples never causes an action |
| Keys.KeyPad.ReadPins | IoT/coap_control_board/src/coap_client_button.c:77-79 | the loop gathers the pins into their mask |
| Keys.KeyPad.KeyScan | IoT/coap_control_board/src/coap_client_button.c:81-131 | the switch over the static variables is the scanner's transition, whose effect on every stream `Episodes.StreamDecoded` gives |
| Episodes.ReleaseBounces | IoT/coap_control_board/src/coap_client_button.c:112-126 | from rest, 2 to 101 samples of a key, a zero, any nonzero samples and the next zero give exactly one short press of that key and end at rest |
| Episodes.PressBroken | IoT/coap_control_board/src/coap_client_button.c:93-111 | from rest, 1 to 101 samples of a key and one nonzero sample of another give nothing and end at rest |
| Episodes.EveryStreamParses | IoT/coap_control_board/src/coap_client_button.c:81-131 | every sample stream is a sequence of pauses, taps, glitches, clicks with bouncing releases and holds, and one unfinished rest |
| Episodes.StreamDecoded | IoT/coap_control_board/src/coap_client_button.c:81-243 | on any stream from rest exactly the outcomes of its episodes are reported: a short press for each click, a long one for each hold, nothing else |
| Keys.KeyPad.KeyStatus | IoT/coap_control_board/src/coap_client_button.c:134-245 | one pass reports and clears exactly the action that became due |
| SysTimer.PowerOnClosedForm | IoT/coap_control_board/src/main.c:17-39 | with no resets the counters are the mixed-radix digits of the tick count and the minute flag was raised once per 60000 ticks |
| SysTimer.FlagsRise | IoT/coap_control_board/src/main.c:20-35 | from power-on, with nobody resetting or taking flags, the minute flag is up from tick 60000 on and the ten-millisecond flag from tick 10 |
| SysTimer.CountsTicks | IoT/coap_control_board/src/main.c:17-39 | from any digits, the counters add up the ticks modulo 60000 and the flag is raised once per wrap |
| SysTimer.AfterLastReset | IoT/coap_control_board/src/main.c:17-39 | after the last reset from any reachable state the flag is raised not before tick 59001 and not after tick 60000 |
| SysTimer.SysTim.TickHandler | IoT/coap_control_board/src/main.c:17-39 | the cascaded increments are the tick of the specification and keep the counters digits |
| Display.RedrawEqualsFresh | IoT/coap_control_board/src/coap_client_oled.c:341-578 | drawing over an old picture equals drawing without it when every rectangle of the old one is drawn again |
| Display.TilesCover | IoT/coap_control_board/src/coap_client_oled.c:168-205 | the cells written by a list of glyph rectangles are exactly the cells of the rectangles |
| Display.PaintCell | IoT/coap_control_board/src/coap_client_oled.c:143-158 | a written cell does not depend on the old picture, an unwritten one is unchanged |
| Oled.Panel.ColumnSet | IoT/coap_control_board/src/coap_client_oled.c:160-164 | the two nibble commands set the column pointer and nothing else |
| Oled.Panel.PageSet | IoT/coap_control_board/src/coap_client_oled.c:166 | the command sets the page pointer and nothing else |
| Oled.Panel.SendData | IoT/coap_control_board/src/coap_client_oled.c:143-158 | the bytes land in consecutive cells of the row and the column pointer advances |
| Oled.Panel.DrawGlyphs | IoT/coap_control_board/src/coap_client_oled.c:168-205 | the page and column loops of both widths paint the rectangle of glyphs and nothing else |
| Oled.Panel.ClearOled | IoT/coap_control_board/src/coap_client_oled.c:207-219 | afterwards every cell is zero |
| Oled.Panel.ClearHalfPart | IoT/coap_control_board/src/coap_client_oled.c:234-245 | blanks one half-width glyph on both rows and nothing else |
| Glyphs.PackGlyph | font_gen.py:37-45 | the 32 bytes hold every pixel of the image: byte 16p + x, bit j is row 8p + j of column x |
| Glyphs.PackThenDraw | font_gen.py:37-45 | packing any 16 by 16 images and drawing the bytes in range lights exactly the images' pixels in the rectangle and leaves every other pixel alone |
| Glyphs.TileCell | IoT/coap_control_board/src/coap_client_oled.c:193-205 | each cell of a drawn rectangle holds the data byte of its glyph, row and column, whatever is drawn later in the rectangle |
| Glyphs.OutsideKept | IoT/coap_control_board/src/coap_client_oled.c:160-205 | no pixel outside the rectangle changes |
| Utf8.Lookup | IoT/coap_control_board/src/coap_client_oled.c:264-303 | for well-formed UTF-8 and up to 16 characters the buffer holds, character by character, the block of the first equal table character or a blank |
| Utf8.GlyphsAt | IoT/coap_control_board/src/coap_client_oled.c:288-301 | block k of the buffer is the glyph of the k-th character |
| Utf8.ShownIs | IoT/coap_control_board/src/coap_client_oled.c:270-302 | what is shown is the beginning of the string, cut at the word length |
| Utf8.FindGlyph | IoT/coap_control_board/src/coap_client_oled.c:280-298 | the walk over the table finds the block of the first equal character, or none, and ends |
| Utf8.AtBoundary | IoT/coap_control_board/src/coap_client_oled.c:270-277 | at the k-th boundary the memory shows the k-th character, or the terminator exactly at the end |
| Utf8.StepsAreLengths | IoT/coap_control_board/src/coap_client_oled.c:274-286 | both step rules equal the encoded length of the character at hand |
| Labels.TextPrintable | IoT/coap_control_board/src/coap_client_oled.c:43-87 | every text of the pages is well-formed UTF-8 of characters that can stand in a NUL-terminated string |
| Labels.TextReads | IoT/coap_control_board/src/coap_client_oled.c:47-86 | character by character the bytes of each text are the UTF-8 encoding of the source's string |
| Labels.CodePointInjective | IoT/coap_control_board/src/coap_client_oled.c:272-290 | a code point has one three-byte encoding only |
| Pages.DigitsDecodeIff | IoT/coap_control_board/src/coap_client_oled.c:323-338 | the four digits read back as the number if and only if it is below 1000 |
| Pages.DigitGlyphsAt | IoT/coap_control_board/src/coap_client_oled.c:334-338 | block k of the number buffer is the font block of digit k |
| Pages.HalfGlyph | IoT/coap_control_board/src/coap_client_oled.c:312-318 | the block of the last table entry equal to the character, or a blank |
| Pages.HalfGlyphsAt | IoT/coap_control_board/src/coap_client_oled.c:311-319 | block k of the buffer belongs to character k |
| Pages.GroupAreas | IoT/coap_control_board/src/coap_client_oled.c:388-531 | two pages drawn over each other without clearing cover the same set of rectangles, whatever the parameters |
| Pages.IncrementalEqualsFresh | IoT/coap_control_board/src/coap_client_oled.c:341-578 | within a page group, drawing over the old picture equals drawing onto a blank screen |
| Board.Table | IoT/coap_control_board/src/coap_client_oled.c:96-131 | every row names itself, leads only to rows, and lies in its own group range |
| Menu.ButtonsToMask | IoT/coap_control_board/src/coap_client_button.c:18-21 | the four pins, in order, are the masks 1, 2, 4 and 8, and add up |
| Menu.EnterOpens | IoT/coap_control_board/src/coap_client_oled.c:96-108 | ENTER leads from the welcome page to the main page, on to the settings, and from each settings entry to the page showing what the entry names |
| Menu.EnterTwice | IoT/coap_control_board/src/coap_client_oled.c:106-130 | ENTER twice returns to each of the last three settings entries, and from a parameter through its question to the first of the group |
| Menu.MenuGoesHome | IoT/coap_control_board/src/coap_client_button.c:217-234 | MENU leads to the main page from everywhere, and from parameters and their questions sets all parameters to zero |
| Menu.FactoryValues | IoT/coap_control_board/src/coap_client_button.c:150-163 | confirming the factory question sets 100, 50, 100, 0xEF and 30, and no other ENTER sets anything |
| Menu.IncrementsOne | IoT/coap_control_board/src/coap_client_oled.c:445-525 | an increment raises the page's parameter by one modulo 200, 100, 200, 255 or 999, and no other |
| Menu.UnknownKeys | IoT/coap_control_board/src/coap_client_button.c:236-238 | masks other than the four keys move and set nothing |
| Menu.ElsewhereNothingMoves | IoT/coap_control_board/src/coap_client_oled.c:96-130 | off the settings and parameters UP and DOWN move nothing |
| Board.DrawRefines | IoT/coap_control_board/src/coap_client_oled.c:618-635 | one screen pass leaves the picture of current page and parameters drawn from blank |
| Board.StepOk | IoT/coap_control_board/src/coap_client_oled.c:341-635 | every step keeps the page numbers, parameter limits, timer digits and "the screen is blank or shows the page drawn last" |
| Board.IncrementalRendering | IoT/coap_control_board/src/coap_client_oled.c:341-635 | over every run of samples, screen passes, system passes and ticks from power-on, each redraw equals drawing onto a blank screen |
| Board.AlwaysFresh | IoT/coap_control_board/src/coap_client_oled.c:618-635 | over every run, whenever no redraw is requested the memory shows the current page and parameters |
| Screens.ScreenShows | IoT/coap_control_board/src/coap_client_oled.c:43-131 | over every run, whenever no redraw is requested each cell of each text, digit, cursor and mark of the current page holds its glyph byte, and every other cell is blank |
| Screens.ParameterCells | IoT/coap_control_board/src/coap_client_oled.c:474-530 | after a redraw of a parameter page, on row 3r from column 80, the cells hold the font bytes of the decimal digits of parameter r of the group |
| Screens.CursorCells | IoT/coap_control_board/src/coap_client_oled.c:411-439 | after such a redraw the cursor glyph stands on the current entry's row and the other cursor cells are blank |
| Board.MenuInvariant | IoT/coap_control_board/src/coap_client_oled.c:445-530 | over every run the page names its own row, each parameter stays under its limit, and the digits shown for it read back as it |
| Board.SettingsNavigation | IoT/coap_control_board/src/coap_client_oled.c:103-108 | u UP and d DOWN presses in any order among the settings pages move the selection by (u - d) mod 5 |
| Board.IdleBounds | IoT/coap_control_board/src/main.c:89-97 | with no flag waiting, a press leading off the welcome and main pages is followed by no return to the main page up to 59000 ticks and by one from 60000 on |
| Board.NoEarlyTimeout | IoT/coap_control_board/src/main.c:89-97 | from any good state with a fresh minute counter and no flag, 59000 ticks without a press leave the page |
| Board.TimeoutBy | IoT/coap_control_board/src/main.c:93-97 | from any good state off those pages, 60000 ticks without a press end on the main page at the next system pass |
| Idle.HomeStays | IoT/coap_control_board/src/main.c:89-91 | on the welcome and main pages, whatever the total of ticks, a run without a press whose system passes come at least every 59000 ticks keeps the page, raises no flag and contains no timeout |
| Idle.WelcomeForever | IoT/coap_control_board/src/main.c:83-98 | from power-on with a system pass after every tick the board stays on the welcome page for any number of ticks |
| Moves.RunIsMoves | IoT/coap_control_board/src/coap_client_button.c:134-262 | over every run of samples, screen passes, system passes and ticks the scanner depends on the samples alone, the keys dispatched are the short presses it reports, in order, and page, parameters and pending press are the outcome of those keys, the redraws and the timeouts |
| Moves.StrokesDriveMenu | IoT/coap_control_board/src/coap_client_button.c:144-239 | in any run whose samples are strokes, whatever else happens between them, exactly the keys of the short presses are dispatched, in order, and the scanner ends at rest |
| Increments.IncrementAtRedraw | IoT/coap_control_board/src/coap_client_oled.c:445-525 | after any steps up to a redraw, timeouts included, with or without an earlier press pending, exactly the page redrawn gets one increment if it is a parameter page and a press is pending; otherwise parameters and mark stay |
| Increments.RunFaithfulIff | IoT/coap_control_board/src/coap_client_oled.c:445-525 | over every run the parameters are as if each DOWN press had at once raised the parameter selected then, if and only if for every parameter the presses on its page and the redraws that carried a press out on it agree modulo its limit |
| Increments.RedrawFaithfulIff | IoT/coap_control_board/src/coap_client_oled.c:445-525 | after any steps up to a redraw, timeouts included, the redraw agrees with raising at each press the parameter selected then, if and only if for every parameter the presses on its page equal, modulo its limit, the one or no increment it is given |
| Increments.OneIncrementPerRedraw | IoT/coap_control_board/src/coap_client_oled.c:445-525 | in any run up to a redraw that moves within a parameter group by UP and DOWN, all DOWN presses count once, for the parameter UP presses have led to, modulo the group |
| Increments.PendingGoesTo | IoT/coap_control_board/src/coap_client_oled.c:341-531 | over any run whose redraws show other pages a press stays pending, timeouts included, and the first parameter page redrawn gets it, everything else being as the keys left it |
| Increments.OutsideGroupIff | IoT/coap_control_board/src/coap_client_button.c:196-234 | over every run between two parameter pages the second lies outside the first one's group if and only if a MENU press or a timeout led back to the main page and the moves since the last of them lead into the other group |
| Increments.TwoPressesOneIncrement | IoT/coap_control_board/src/coap_client_button.c:205-210 | a run at the pins from power-on in which two DOWN strokes raise the distance by one |
| Increments.StrayIncrement | IoT/coap_control_board/src/coap_client_button.c:205-233 | a run at the pins from power-on in which a DOWN stroke on the distance page, followed by MENU, raises the brightness |
| Increments.TimeoutStraysIncrement | IoT/coap_control_board/src/main.c:93-97 | a run from power-on in which a timeout undoes a DOWN stroke on the distance page, and the press raises the brightness later, with no MENU pressed |
| Session.FullPeriodIffNoStaleFlag | IoT/coap_control_board/src/main.c:93-97 | a press keeps its page for 59000 ticks if and only if no earlier minute flag is still waiting |
| Session.StaleFlagReachable | IoT/coap_control_board/src/main.c:93-97 | a run from power-on after which a press is undone by the very next system pass |
| ControlBoard.Device.ScreenPass | IoT/coap_control_board/src/coap_client_oled.c:618-635 | the pass over the panel's memory and the globals is the machine's draw step |
| ControlBoard.Device.DrawSetPage | IoT/coap_control_board/src/coap_client_oled.c:388-421 | clears outside the group only, and paints blanked cursor column, cursor and labels in that order |
| ControlBoard.Device.DrawSensorParamPage | IoT/coap_control_board/src/coap_client_oled.c:423-480 | applies a pending increment to the selected parameter before painting the three numbers (`Screens.ParameterCells` says which number stands where), and clears the pending mark |
| ControlBoard.Device.DrawOledParamPage | IoT/coap_control_board/src/coap_client_oled.c:482-531 | the same for the two screen parameters |
| ControlBoard.Device.DrawNoticePage | IoT/coap_control_board/src/coap_client_oled.c:533-578 | the version, networking and confirmation pages paint their label and half-width text |
| ControlBoard.Device.DrawWelcomePage | IoT/coap_control_board/src/coap_client_oled.c:341-354 | paints the two labels, on a cleared panel when the page is new |
| ControlBoard.Device.DrawMainPage | IoT/coap_control_board/src/coap_client_oled.c:356-386 | paints the three labels, on a cleared panel when the page is new |
| ControlBoard.Device.DrawPart | IoT/coap_control_board/src/coap_client_oled.c:247-304 | looks the text up byte by byte and paints its glyphs |
| ControlBoard.Device.DrawHalfPart | IoT/coap_control_board/src/coap_client_oled.c:306-321 | fills the buffer glyph by glyph and paints it |
| ControlBoard.Device.FindHalf | IoT/coap_control_board/src/coap_client_oled.c:312-318 | the last equal table entry decides the glyph |
| ControlBoard.Device.ValToStr | IoT/coap_control_board/src/coap_client_oled.c:323-339 | the buffer holds the glyphs of the four digits |
| ControlBoard.Device.IncrementSelected | IoT/coap_control_board/src/coap_client_oled.c:445-472 | the selected parameter goes up by one, back to zero at its limit; the others stay |
| ControlBoard.Device.KeyPass | IoT/coap_control_board/src/coap_client_button.c:247-262 | the pass is the machine's sample step; a provisioning request goes out exactly for ENTER on the fifth settings page |
| ControlBoard.Device.HandleShort | IoT/coap_control_board/src/coap_client_button.c:145-239 | a short press resets the minute counter, wakes the panel without touching its memory, and moves the menu or its parameters |
| ControlBoard.Device.SystemPass | IoT/coap_control_board/src/main.c:87-99 | the pass is the machine's system step, whose counter reset on the two home pages `Idle.HomeStays` needs |
| ControlBoard.Device.TickInterrupt | IoT/coap_control_board/src/main.c:17-39 | the interrupt is the machine's tick step |
| PollPeriod.KeptIffNoIntrusion | IoT/client/src/protocol/src/iot_coap_client_utils.c:64-100 | for any interleaving of the two threads' steps ending at rest, the original period is in force or set aside if and only if no reply wrote it back between a request's two stores |
| PollPeriod.NeverOverwritten | IoT/client/src/protocol/src/iot_coap_client_utils.c:74-97 | without such an intrusion the saved value is at every step zero or the original period |
| PollPeriod.LateReplyLosesPeriod | IoT/client/src/protocol/src/iot_coap_client_utils.c:74-97 | a schedule of three requests and two replies, each answering a request already sent, after which, whatever follows, the original period never comes back |
| PollPeriod.OperationsKeep | IoT/client/src/protocol/src/iot_coap_client_utils.c:102-201 | requests, replies (missing, repeated, malformed) and mode toggles taken whole, in any order, keep the period |
| PollPeriod.OperationIsRun | IoT/client/src/protocol/src/iot_coap_client_utils.c:64-100 | an uninterrupted operation is a run of the step machine and cannot intrude |
| PollPeriod.ShortenedIffPending | IoT/client/src/protocol/src/iot_coap_client_utils.c:102-182 | the short period is in force exactly while a request made in sleepy mode waits for a reply handled in sleepy mode |
| PollPeriod.ModeIsParity | IoT/client/src/protocol/src/iot_coap_client_utils.c:184-201 | the receiver mode is its first value turned over by every accepted toggle |
| PollPeriod.PeerIsLastValidReply | IoT/client/src/protocol/src/iot_coap_client_utils.c:112-120 | the peer address is the payload of the last reply of the right size, or the first address if there was none |
| PollPeriod.ValidPayloadIs | IoT/client/src/protocol/src/iot_coap_client_utils.c:114 | a payload counts exactly when it is there and has 16 bytes |
| PollPeriod.Client.OnProvisioningReply | IoT/client/src/protocol/src/iot_coap_client_utils.c:102-136 | the period is restored on the error paths too, and the address is taken from any payload of 16 bytes |
| PollPeriod.Client.SendProvisioningRequest | IoT/client/src/protocol/src/iot_coap_client_utils.c:170-182 | saves the link's period once and shortens it, only in sleepy mode |
| PollPeriod.Client.ToggleMinimalSleepyEndDevice | IoT/client/src/protocol/src/iot_coap_client_utils.c:184-201 | turns the mode over and announces it exactly when the stack accepts |
| LedResource.StateIsLastSetAndParity | IoT/server/src/devices/src/iot_led.c:78-93 | after any request sequence an LED's state is its last ON or OFF value turned over by the toggles since |
| LedResource.TogglesOnly | IoT/server/src/devices/src/iot_led.c:78-93 | with no ON or OFF its state is the first state turned over by the toggles |
| LedResource.OthersUntouched | IoT/server/src/devices/src/iot_led.c:72-93 | requests for other LEDs, unknown LEDs or unknown states leave it alone |
| LedResource.PutEffect | IoT/server/src/devices/src/iot_led.c:78-90 | a PUT of 0, 1 or 2 for an existing LED clears, sets or turns it over and touches no other |
| LedResource.NoEffect | IoT/server/src/devices/src/iot_led.c:72-93 | every other request leaves all LEDs alone |
| LedResource.ReportIs | IoT/server/src/devices/src/iot_led.c:107-111 | the report lists every LED once, in order, with its state |
| LedResource.ResponseIff | IoT/server/src/protocol/src/iot_coap_utils.c:187-219 | exactly which requests are answered, with Content for a GET and Changed for a PUT, as an acknowledgment if confirmable and non-confirmable otherwise (RFC 7252, sections 5.2.1, 5.9.1.4 and 5.9.1.5) |
| LedResource.ReturnNamesFailure | IoT/server/src/protocol/src/iot_coap_utils.c:114-184 | the return value names the first call that failed |
| LedResource.ReadYourWrite | IoT/server/src/devices/src/iot_led.c:98-117 | a GET answered after a write reports what was written, among all LEDs in order |
| LedResource.StateClosedForm | IoT/server/src/devices/src/iot_led.c:78-93 | over any request sequence the state is the last ON or OFF, or the first state, turned over by the toggles since |
| LedResource.PinIsLastTaken | IoT/server/src/devices/src/iot_led.c:78-90 | over any requests and driver answers the pin holds the state as it was after the last command the driver took, or its first level |
| LedResource.AgreementIff | IoT/server/src/devices/src/iot_led.c:78-90 | state and pin agree exactly when the pin's level equals the last refused ON or OFF since then, or itself, turned over by the refused toggles since |
| LedResource.RefusedCommandDisagrees | IoT/server/src/devices/src/iot_led.c:78-95 | one refused ON on a fresh LED leaves the state 1, the pin 0 and the requester without a response |
| LedResource.Server.HandlerPut | IoT/server/src/devices/src/iot_led.c:62-96 | the state follows a valid command even when the driver refuses; unknown LEDs and states change nothing and give an error |
| LedResource.Server.HandlerGet | IoT/server/src/devices/src/iot_led.c:98-117 | the loop reports every LED with its identifier and state, and the response carries that report |
| LedResource.Server.RespSend | IoT/server/src/protocol/src/iot_coap_utils.c:105-185 | whichever call fails, a message that was allocated is sent or freed exactly once; type and code follow sections 5.2.1, 5.9.1.4 and 5.9.1.5 of RFC 7252 |
| LedResource.Server.Compose | IoT/server/src/protocol/src/iot_coap_utils.c:126-171 | types other than confirmable and non-confirmable and codes other than GET and PUT are refused; otherwise the message carries the type and code that `LedResource.ResponseIff` spells out, marker and payload |
| LedResource.Server.ReqHandler | IoT/server/src/protocol/src/iot_coap_utils.c:187-219 | each request gets at most one response, exactly when it is answered and nothing fails, with the states after the command; every message taken is accounted for |
| LedResource.ReqSend | IoT/server/src/protocol/src/iot_coap_utils.c:31-91 | a request goes out confirmable with its payload, or its message is freed exactly once and the failing call is named |

## Left out

- Floating-point conversion of the AHT20 fields: the two 20-bit fields are kept as integers; rounding is not the point.
- Wake-up of the consumer by every message: it does not hold (`Wakeup.LostWakeup`); that the consumer is scheduled at all is not modelled.
- The BMP280 thread enters as an arbitrary caller of the producer function; the LD2410C thread submits nothing.
- The near-copies of the producer and of the AHT20 driver under IoT/server and IoT/client: same logic.
- Producer.Node.CreateEventPayload: runs the call in one piece; interleaving inside a call is covered by `Pipeline` and its run theorems.
- PollPeriod.Client.OnProvisioningReply: runs in one piece; interleaving with a request is covered by the step machine.
- Board.IdleBounds: assumes no minute flag is waiting at the press, because with one waiting it is false (`Session.FullPeriodIffNoStaleFlag`).
- PipelineHistory.HrboFrame: assumes the 100-byte payload the heart-rate thread submits.
- LedResource.ReadYourWrite: JSON encoding and parsing are taken to carry the values over unchanged.
- JSON text, URI options, addresses and timeouts of CoAP, and the client side of reading an LED state (`coap_led_get_state`): stack and library calls.
- LED and stack initialisation (`led_init`, `coap_init`), resource registration, `coap_device_id`.
- Contrast and orientation of the panel beyond "commands do not change the display memory", and the initial command list.
- The bitmaps of the font tables: any tables of the right shape are allowed.
- Flash, NVS and BLE code, GPIO and thread set-up, logging.
- `toggle_one_light`, `toggle_mesh_lights` and the connection callbacks: they only send a fixed byte.
- IoT/coap_control_board/src/coap_list.c is entirely commented out; IoT/coap_ed_light refers to undeclared names.
