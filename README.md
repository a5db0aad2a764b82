# Root controller of the modular robot bus, in Dafny

This project models the root controller firmware of a modular robot
(`Thesis_Master/main.c`). The root sits between a host PC and a tree of
modules sharing a half-duplex serial bus. It does five things, and the model
has each of them:

- **Frame builders.** It builds the control frames
  `START START src dst type params END END` for Hello, Ping and address
  assignment, and the servo instruction packets
  `0xFF 0xFF id length instruction address values checksum` (the instruction
  packet of Robotis Dynamixel Protocol 1.0).
- **Frame recogniser.** `validTransmission` polls the child port byte by
  byte, bounded by the receive timer.
- **Mode switch.** `configToggle` switches between the PC-listener
  configuration and the receiver configuration.
- **Discovery.** `initializeChildren` finds the child port, enrols new
  modules with bounded ping retries and rollback, and ends after 50
  consecutive timeouts.
- **Host commands.** `decodeTransmission` serves `x`, `n`, `w id a|p|s v` and
  `r id a|p|t|c`.

How the hardware is modelled:

- The receive ports are a finite sequence of polls. Each poll returns a byte
  (0 means nothing arrived) and says whether the timer ticked after it. Once
  the sequence is used up the bus is silent and time still passes.
- The two transmit repeaters and the host link are byte and character logs.
- Loading and unloading configurations, and stopping the receive timer, are a
  log of hardware events. Replaying that log gives the set of loaded
  configurations.

The modules follow the program's structure:

- `Wire` holds the constants, the frame and packet builders, the checksum,
  the 16-bit split and `itoa`/`atoi`.
- `Recogniser` holds the poll model, the recogniser as a fold, its soundness
  and completeness, and the reply wait of `pingModule`/`assignID`.
- `Modes` holds the mode switch as an event log.
- `Listening` holds `childListen`.
- `Readback` holds the reply scans of `r id a` and `r id p`.
- `Commands` holds the command grammar.
- `Root` holds the `RootController` class, whose fields are the firmware's
  globals. Its methods are the firmware's functions, with their loops, and
  each is proved against the function of the other modules that specifies it.

Only the speed write skips a value of 0 (`Thesis_Master/main.c:426`). The
torque write is sent whatever its value (`Thesis_Master/main.c:415`).

The discovery loop counts a timeout only while some module is known, so it
can reach MAX_TIMEOUTS only with a module counted. The probe after the loop
for already configured modules (`Thesis_Master/main.c:876-887`) therefore
runs only when the loop ended some other way. In the model that happens when
the input runs out, which the ensures of `InitializeChildren` state. In the
firmware, on an endless bus, the probe is never reached.

## Model

| member | source | states |
|---|---|---|
| Wire.ToByte | Thesis_Master/main.c:403-404 | storing an int into a `char` keeps it modulo 256 and leaves values 0..255 alone |
| Wire.CQuot | Thesis_Master/main.c:404 | C division truncates toward zero: the Euclidean quotient for a non-negative dividend; for a negative one, a quotient q <= 0 with `a <= q*d < a + d`, the multiple of d nearest to a from above |
| Wire.CRem | Thesis_Master/main.c:403 | C remainder: `a == d*CQuot(a,d) + r`; the Euclidean remainder for a non-negative dividend, and `-d < r <= 0` for a negative one |
| Wire.ControlFrameBytes | Thesis_Master/main.c:149-162 | the Hello, Ping and address-assignment frames are exactly `252,252,0,251,200,253,253`, `252,252,0,m,203,253,253` and `252,252,0,251,201,a,253,253` |
| Wire.ServoPacketChecks | Thesis_Master/main.c:611-638 | a servo packet is 7 bytes plus its values, starts `255,255,id,length,instruction,address`, carries the values in order, and its fields after the start bytes plus the checksum sum to 255 modulo 256 |
| Wire.Word | Thesis_Master/main.c:483 | `hi*256 + lo` of two bytes is below 65536 |
| Wire.SplitWord | Thesis_Master/main.c:400-407 | splitting 0 <= v < 65536 into `v%256` and `v/256` and rebuilding gives v back, and rebuilding then splitting gives the two bytes back |
| Wire.DecimalString | Thesis_Master/main.c:382 | `itoa(n,10)` is a non-empty string of digits with no leading zero |
| Wire.LeadingDigits | Thesis_Master/main.c:391 | `atoi` reads the longest digit prefix: a prefix of the token, all digits, followed by a non-digit or the end |
| Wire.AtoiOfDecimal | Thesis_Master/main.c:382-383 | `atoi(itoa(n)) == n` for every n >= 0 |
| Wire.AtoiOfSigned | Thesis_Master/main.c:400 | `atoi` reads back every whole number written with an optional minus sign |
| Recogniser.NextPoll | Thesis_Master/main.c:945-967 | one read consumes one poll or, on a silent bus, advances the timer by one; the timer advances by at most one per read |
| Recogniser.Feed | Thesis_Master/main.c:303-355 | a 0 byte leaves the recogniser unchanged, and PARAM keeps its size with its index inside it |
| Recogniser.Receive | Thesis_Master/main.c:301-358 | the polling loop either accepts a frame or runs until the timer reaches RX_TIMEOUT_DURATION; accepting consumes input; a live wait on non-empty input consumes input |
| Recogniser.ReceiveSuffix | Thesis_Master/main.c:301-358 | what the polling loop leaves unread is a suffix of its input |
| Recogniser.ReceiveHears | Thesis_Master/main.c:301-358 | the loop consumes a prefix of its input, and its state is the fold of the recogniser over exactly the bytes that prefix delivered |
| Recogniser.ReceiveCompletes | Thesis_Master/main.c:343-346 | on acceptance, the last byte read is the one that completed the frame |
| Recogniser.AcceptedFrame | Thesis_Master/main.c:295-359 | only a frame is accepted: bytes without START, START, bytes that are 0 or START, a source that is neither, bytes below 200, a type of at least 200, parameters other than END, and END; the registers then hold its source, type and non-zero parameters |
| Recogniser.ReceiveAcceptsOnlyFrames | Thesis_Master/main.c:295-359 | when `validTransmission` returns 1, the reads it made deliver one such frame and the registers hold its fields |
| Recogniser.AcceptsFrame | Thesis_Master/main.c:295-359 | every such frame, heard with no timer tick in between and with the timer below RX_TIMEOUT_DURATION, is accepted exactly at its END with the rest of the input left unread |
| Recogniser.Ticks | Thesis_Master/main.c:945-967 | the timer ticks during a run of reads are at most one per read |
| Recogniser.Retimed | Thesis_Master/main.c:301-358 | timer ticks between the reads change nothing as long as the timer stays below RX_TIMEOUT_DURATION before the last read: the same state is reached, the same input is left, and the timer has moved on by the ticks |
| Recogniser.AcceptsTickedFrame | Thesis_Master/main.c:295-359 | every such frame, heard with any timer ticks in between as long as the timer is below RX_TIMEOUT_DURATION before the last read, is accepted exactly at its END with the rest of the input left unread and the frame's ticks counted |
| Recogniser.FrameThenRest | Thesis_Master/main.c:295-359 | input the recogniser accepts starts with such a frame, and the registers then hold its source, type and non-zero parameters |
| Recogniser.HeaderThenRest | Thesis_Master/main.c:303-331 | input that takes the recogniser to the parameter stage starts with a frame header, whose source and type are then stored |
| Recogniser.AcceptedBeforeTail | Thesis_Master/main.c:343-346 | once a frame's END is read, further input leaves the recogniser accepted |
| Recogniser.NonZero | Thesis_Master/main.c:335-341 | the parameters stored contain no 0 and hold every non-zero byte sent, each as often as it was sent |
| Recogniser.NonZeroFront | Thesis_Master/main.c:335-341 | a leading 0 parameter is skipped, and a leading non-zero one is stored first |
| Recogniser.NonZeroAppend | Thesis_Master/main.c:335-341 | storing parameters splits over concatenation, so the non-zero bytes are stored in the order they were sent |
| Recogniser.WriteFromReads | Thesis_Master/main.c:340-341 | PARAM entry i, inside the buffer and the written stretch, holds the i-th stored parameter |
| Recogniser.WriteFromKeeps | Thesis_Master/main.c:340-341 | PARAM entries below the write index keep their old value |
| Recogniser.NonZeroKeeps | Thesis_Master/main.c:335-341 | parameters with no 0 among them are stored whole and in order |
| Recogniser.AwaitReply | Thesis_Master/main.c:175-193 | the reply wait matches only a frame of the expected type from the expected source, and an unmatched wait ends with the timer at RX_TIMEOUT_DURATION |
| Recogniser.SilentReceive | Thesis_Master/main.c:301-358 | on a silent bus the recogniser state does not change |
| Recogniser.SilentReply | Thesis_Master/main.c:175-198 | on a silent bus the reply wait never matches |
| Recogniser.UntunedReceive | Thesis_Master/main.c:964-966 | with CHILD naming no port, the polling loop leaves the recogniser state unchanged |
| Recogniser.UntunedReply | Thesis_Master/main.c:964-966 | with CHILD naming no port, the reply wait never matches |
| Recogniser.ReplyMatched | Thesis_Master/main.c:175-193 | a module's answer `START START m PARENT_ID cmd params END END` to a wait for type cmd from m is matched, its non-zero parameters land in PARAM from index 0, and the closing END stays unread |
| Recogniser.DestinationTakenAsType | Thesis_Master/main.c:323-330 | the destination byte is not stored: a destination of 200 or more is taken as the command type, and the real type becomes PARAM[0] |
| Modes.UnloadConfigEvents | Thesis_Master/main.c:781-791 | `unloadConfig(n)` unloads exactly the configuration of n, and nothing for any other number |
| Modes.UnloadAllEvents | Thesis_Master/main.c:773-777 | `unloadAllConfigs` unloads both configurations |
| Modes.UnloadEvents | Thesis_Master/main.c:698-705 | the toggle unloads the configuration of STATE, or both when STATE is 0 |
| Modes.LoadEvents | Thesis_Master/main.c:707-765 | the toggle loads the configuration of the requested mode, and nothing for another value |
| Modes.ToggledState | Thesis_Master/main.c:707-765 | STATE becomes the requested mode, and is unchanged for another value |
| Modes.ToggleEffect | Thesis_Master/main.c:690-769 | a toggle removes the configurations of the old STATE and then adds the one of the new mode |
| Modes.ToggleLoadsOne | Thesis_Master/main.c:690-769 | from a state with exactly its configuration loaded, switching to PC or RX mode leaves exactly the new mode's configuration loaded |
| Modes.ToggleIdempotent | Thesis_Master/main.c:690-769 | repeating a toggle to the same mode changes neither STATE nor what is loaded |
| Modes.StopTimerKeepsConfigs | Thesis_Master/main.c:195 | stopping the receive timer leaves the loaded configurations alone |
| Listening.PortChar | Thesis_Master/main.c:38-41 | the characters '1'..'4' name the four ports |
| Listening.Drain | Thesis_Master/main.c:902-908 | after a START, CHILD either keeps its value or becomes the port, and the inner loop runs the timer out |
| Listening.Probe | Thesis_Master/main.c:900-939 | one pass over the ports leaves CHILD unchanged or a port, and consumes input or time |
| Listening.Listen | Thesis_Master/main.c:894-942 | `childListen` runs the timer out and consumes input while the timer runs |
| Listening.ListenSetsPort | Thesis_Master/main.c:894-942 | `childListen` sets CHILD only to '1'..'4' |
| Listening.SilentListen | Thesis_Master/main.c:805-812 | on a silent bus CHILD keeps its value, so discovery says Hello again |
| Listening.DrainKeeps | Thesis_Master/main.c:902-908 | once CHILD names the drained port, further ENDs keep it there |
| Listening.SilentProbe | Thesis_Master/main.c:900-939 | on a silent bus a pass over the ports keeps CHILD and takes one tick per remaining port |
| Listening.ProbeFinds | Thesis_Master/main.c:900-939 | a pass that hears START first on port j, after silence on the ports before it, drains port j |
| Listening.ChildFound | Thesis_Master/main.c:894-942 | a child answering START then END on port j is found: CHILD becomes port j |
| Readback.AngleScan | Thesis_Master/main.c:461-501 | the scan of `r id a` consumes no more input than it has; its answers are stated by AngleReadBack (error 0), AngleErrorUnanswered (non-zero error), SilentAngle (silent bus) and AngleUnheard (no port) |
| Readback.PowerLine | Thesis_Master/main.c:537-547 | `r id p` answers "0\n" exactly when the running total modulo 256 equals 255 minus the first non-zero byte after the length, and "1\n" otherwise |
| Readback.PowerScan | Thesis_Master/main.c:513-556 | the scan of `r id p` answers nothing, "0\n" or "1\n" |
| Readback.AngleReadBack | Thesis_Master/main.c:461-501 | a servo answering with error 0 and position bytes lo, hi is reported as the decimal value of `hi*256 + lo` |
| Readback.AngleErrorUnanswered | Thesis_Master/main.c:471-497 | a servo answering with a non-zero error byte gets no answer: the scan ends at the error byte and the host is sent nothing |
| Readback.SilentAngle | Thesis_Master/main.c:461-501 | on a silent bus every read is 0, never the length byte 4, so `r id a` answers nothing |
| Readback.PowerReadBack | Thesis_Master/main.c:513-556 | a servo answering a torque value of 0 or 1 is reported as "0\n" when its torque is off and "1\n" when it is on, for every id except 251 and 252 |
| Readback.PowerMisread | Thesis_Master/main.c:537-541 | for servo 251 with torque on, the value byte 1 equals the checksum the heuristic expects, so the host is told '0' |
| Readback.PowerSkipped | Thesis_Master/main.c:513-556 | for servo 252 with torque off, the value byte and the checksum are both 0, so the scan skips them and goes on waiting for a value byte after the reply |
| Readback.SilentValue | Thesis_Master/main.c:537-547 | a scan waiting for the value byte on a silent bus answers nothing |
| Readback.PowerUnanswered | Thesis_Master/main.c:513-556 | when nothing follows the reply, `r 252 p` for servo 252 with torque off gets no answer at all |
| Readback.AngleUnheard | Thesis_Master/main.c:964-966 | with CHILD naming no port, `r id a` answers nothing |
| Readback.PowerUnheard | Thesis_Master/main.c:964-966 | with CHILD naming no port, `r id p` answers nothing |
| Commands.Parse | Thesis_Master/main.c:372-594 | a command other than "nothing" needs a first token; a write needs four tokens led by 'w'/'W', a read three tokens led by 'r'/'R' |
| Commands.ParseFormat | Thesis_Master/main.c:372-594 | every command has a command line that the dispatcher reads back as that command |
| Commands.ParseByLeads | Thesis_Master/main.c:372-594 | only the first character of the command tokens matters: lines that agree on those characters and on the number tokens mean the same |
| Commands.ParseWrites | Thesis_Master/main.c:386-434 | the canonical lines of the three servo writes read back as those writes |
| Commands.ParseReads | Thesis_Master/main.c:436-594 | the canonical lines of the four reads read back as those reads |
| Root.ModuleReport | Thesis_Master/main.c:562-572 | a module query keeps PARAM's size; what it answers is stated by ModuleReports and SilentModule |
| Root.React | Thesis_Master/main.c:362-607 | the host-visible outcome of a command keeps PARAM's size; what each command answers is stated by the lemmas below |
| Root.CountReadsBack | Thesis_Master/main.c:379-384 | `n` answers one decimal line that reads back as the module count, and touches neither the input nor the registers |
| Root.ModuleReports | Thesis_Master/main.c:562-572 | a module answering the ping with non-zero parameters has the parameter at the queried index reported, and its answer stays in the registers |
| Root.QueriesReported | Thesis_Master/main.c:557-592 | `r id t` and `r id c` report the type and child port the module answers with |
| Root.SilentModule | Thesis_Master/main.c:562-589 | module queries on a silent bus answer nothing |
| Root.DeafWithoutChild | Thesis_Master/main.c:945-967 | before CHILD names a port, every query that needs the bus answers nothing |
| Root.AngleFrame | Thesis_Master/main.c:394-407 | `w id a v` sends a 9-byte packet whose value bytes are the low and high byte of v |
| Root.AngleReported | Thesis_Master/main.c:446-501 | `r id a` answered by the servo with position bytes lo, hi reports `hi*256 + lo` in decimal |
| Root.ReadsScan | Thesis_Master/main.c:446-556 | `r id a` and `r id p` answer what their scans give, starting from a cleared timer |
| Root.AngleRoundTrip | Thesis_Master/main.c:394-407 | for 0 <= v < 65536, `w id a v` carries v as its low and high byte, and a servo holding that position answers `r id a` with v in decimal |
| Root.PowerRoundTrip | Thesis_Master/main.c:408-415 | `w id p v` carries v, and a servo holding torque v in {0,1} answers `r id p` with v, for ids other than 251 and 252 |
| Root.SentWellFormed | Thesis_Master/main.c:386-594 | what a command sends is nothing, a ping of the queried module, or a servo instruction of at least 8 bytes that starts `255,255,id` and whose checksum brings its fields to 255 modulo 256 |
| Root.Repeat | Thesis_Master/main.c:834-840 | k copies of a frame are k times its length |
| Root.Found | Thesis_Master/main.c:876-887 | a probe finds at most one module per ping |
| Root.MissRun | Thesis_Master/main.c:876-887 | the probe's loop counter after a run of pings is at most the number of pings |
| Root.MissRunCounts | Thesis_Master/main.c:876-887 | the loop counter is the run of misses since the last answer, plus one once a module has answered: the probe gives up after 5 misses when nothing answered, and after 4 once something has |
| Root.ProbeUnfold | Thesis_Master/main.c:876-887 | one more ping adds one module exactly when it is answered, sets the counter to 1 on an answer and adds one on a miss, and goes to the first address not yet found |
| Root.ProbeStep | Thesis_Master/main.c:876-887 | one more ping of a probe that has not given up moves the count, the counter and the pings sent as ProbeUnfold says, and the probe had not given up before it |
| Root.ProbePrefixes | Thesis_Master/main.c:876-887 | a probe that has not given up had not given up at any earlier ping either |
| Root.RootController.constructor | Thesis_Master/main.c:118-122 | power-up: every global zero, nothing loaded, nothing sent |
| Root.RootController.ReadPort | Thesis_Master/main.c:900-935 | one non-blocking read of a receive port, as NextPoll says |
| Root.RootController.IReadChar | Thesis_Master/main.c:945-967 | `iReadChar` reads the CHILD port and returns 0 when CHILD names no port |
| Root.RootController.ReadChar | Thesis_Master/main.c:970-992 | `readChar` reads the CHILD port and returns 0 when CHILD names no port |
| Root.RootController.ServoInstruction | Thesis_Master/main.c:611-646 | both repeaters get exactly the short servo packet with its checksum |
| Root.RootController.LongServoInstruction | Thesis_Master/main.c:649-686 | both repeaters get exactly the long servo packet with its checksum |
| Root.RootController.UnloadConfig | Thesis_Master/main.c:781-791 | appends the unload events of `unloadConfig(n)` |
| Root.RootController.UnloadAllConfigs | Thesis_Master/main.c:773-777 | appends the unload of both configurations |
| Root.RootController.ConfigToggle | Thesis_Master/main.c:690-769 | appends the toggle's events, sets STATE, clears TIMEOUT for PC and RX mode, and keeps exactly one configuration loaded |
| Root.RootController.SayHello | Thesis_Master/main.c:262-292 | both repeaters get the Hello frame between a switch to PC mode and a switch to RX mode |
| Root.RootController.ValidTransmission | Thesis_Master/main.c:295-359 | the loop writes the registers and consumes the input exactly as the recogniser fold says, and returns 1 exactly on acceptance |
| Root.RootController.ListenForReply | Thesis_Master/main.c:175-198 | the wait matches exactly as AwaitReply says; on a timeout it stops the receive timer and clears TIMEOUT |
| Root.RootController.Announce | Thesis_Master/main.c:262-292 | a frame goes out on both repeaters between a switch to PC mode and a switch to RX mode |
| Root.RootController.PingModule | Thesis_Master/main.c:143-199 | sends the Ping frame on both repeaters, then waits for a ping answer from that module |
| Root.RootController.AssignID | Thesis_Master/main.c:201-259 | sends the assignment frame on both repeaters, then waits for an acknowledgement from the new address |
| Root.RootController.DrainPort | Thesis_Master/main.c:902-908 | the inner loop of `childListen`, as Drain says |
| Root.RootController.ProbePorts | Thesis_Master/main.c:900-939 | one pass over the four ports, as Probe says |
| Root.RootController.ChildListen | Thesis_Master/main.c:894-942 | `childListen`, as Listen says; CHILD keeps its value or becomes a port |
| Root.RootController.PingNewest | Thesis_Master/main.c:835-836 | pings the newest module; an answer leaves its ping reply from that address in the registers |
| Root.RootController.ConfirmOnce | Thesis_Master/main.c:834-840 | one retry ping adds one ping frame of the newest module to each repeater; an answer leaves its ping reply in the registers |
| Root.RootController.ConfirmByPing | Thesis_Master/main.c:834-847 | between 1 and 5 pings of the newest module go out, exactly 5 when none is answered; a confirmation leaves a ping answer from it in the registers |
| Root.RootController.Enrol | Thesis_Master/main.c:826-848 | the assignment goes out, then at most 5 retry pings, exactly 5 when registration fails; the count grows by one exactly when the module is registered, and then the registers hold an answer from the new address |
| Root.RootController.DiscoveryRound | Thesis_Master/main.c:819-872 | a round consumes input. On an accepted Hello, the timeout count is reset, the assignment and at most 5 retry pings of the next address go out, and the module count grows by one unless all 5 pings fail. Another accepted frame only changes the registers. On a timeout, the module count is kept, the timeout count grows by one exactly when a module is known, and a Hello goes out exactly when fewer than MAX_MODULES are known |
| Root.RootController.PingNext | Thesis_Master/main.c:878-883 | pings the address after the last counted one on both repeaters and counts the module exactly when it answers; on a silent bus it is not answered |
| Root.RootController.ProbeOnce | Thesis_Master/main.c:876-887 | one pass of the probe loop moves the count, the counter and the pings sent exactly as ProbeStep says |
| Root.RootController.ProbeUpward | Thesis_Master/main.c:876-887 | the probe loop counts exactly the answered pings, sends a ping to the first address not yet found each time, and stops exactly when its counter reaches 5 |
| Root.RootController.ProbeExisting | Thesis_Master/main.c:875-887 | when no module is known, the probe counts exactly the answered pings, sends them to the next addresses in turn, and stops after 5 misses in a row (4 once a module answered); when modules are known, nothing happens; on a silent bus nothing is found |
| Root.RootController.InitializeChildren | Thesis_Master/main.c:793-891 | discovery ends in PC mode with TIMEOUT cleared, with CHILD a port and a module counted unless the input ran out |
| Root.RootController.AngleStep | Thesis_Master/main.c:463-500 | one pass of the `r id a` scan advances the scan as AngleScan says |
| Root.RootController.ScanAngle | Thesis_Master/main.c:461-501 | the host gets AngleScan's answer and the input is consumed as it says |
| Root.RootController.ReadAngleCommand | Thesis_Master/main.c:446-501 | sends the read of register 36 and answers as AngleScan says |
| Root.RootController.ScanPower | Thesis_Master/main.c:513-556 | the host gets PowerScan's answer and the input is consumed as it says |
| Root.RootController.ReadPowerCommand | Thesis_Master/main.c:502-556 | sends the read of register 24 and answers as PowerScan says |
| Root.RootController.ReportModule | Thesis_Master/main.c:562-572 | pings the module and answers as ModuleReport says |
| Root.RootController.PerformWrite | Thesis_Master/main.c:386-434 | the writes send exactly the frame Sent gives, none for a speed of 0 |
| Root.RootController.PerformQuery | Thesis_Master/main.c:436-594 | the reads send what Sent gives and answer as React says |
| Root.RootController.Perform | Thesis_Master/main.c:372-594 | `x` clears the count; every command sends what Sent gives and answers as React says; CHILD is untouched |
| Root.RootController.Settle | Thesis_Master/main.c:597-606 | every command ends in PC mode with TIMEOUT cleared |
| Root.RootController.Execute | Thesis_Master/main.c:362-607 | a command's whole effect: count, frames sent, host answer, input and registers as React says, ending in PC mode |
| Root.RootController.DecodeTransmission | Thesis_Master/main.c:362-607 | `decodeTransmission` on a token list is Execute of its parse |
| Root.RootController.Step | Thesis_Master/main.c:129-140 | one main-loop pass: with no module known, discovery ends in PC mode with a child port and a module unless the input ran out; with a command waiting, the parsed command is sent as Sent says, answered and read as React says, the count cleared exactly for `x`, and the pass ends in PC mode with CHILD kept; otherwise no field changes |

## Left out

- Peripheral register and GPIO writes, `LoadConfig_*`/`UnloadConfig_*`, and
  the UART, repeater and timer start/stop calls are recorded as abstract
  events, not modelled as hardware.
- Interrupts are not modelled as concurrent code. The timer ISRs, the
  interrupt enables in `main` and `xmitWait` become the tick flag of each
  poll. The transmit-complete spin loops are not modelled, because they do
  not change state.
- Host-link tokenising (`COMP_SERIAL_szGetParam`, `bCmdCheck`, `CmdReset`) is
  not modelled. A command arrives as an already-split token list.
- Root.RootController.ReadChar: the blocking read is modelled like the
  non-blocking one. A poll that returns 0 reads as the byte 0 instead of
  waiting for data.
- Root.RootController.IReadChar: with CHILD naming no port, the read still
  consumes one poll, so that time passes.
- Recogniser.Feed: parameter bytes beyond the 10-byte PARAM buffer are
  dropped. The firmware writes past the buffer, because it has no bound
  check.
- Root.RootController.ListenForReply: stopping the receive timer is only an
  event. Later polls still carry ticks.
- Root.RootController.InitializeChildren: the firmware loops forever on a
  silent bus. The model ends its search loops when the input runs out. The
  ensures states the outcome only up to that case.
- Root.RootController.DiscoveryRound: the wait for INIT_WAIT_TIME while no
  module is known is modelled as the timer jumping to that value, with no
  polls read.
- Root.RootController.ConfigToggle: the settle wait in PC mode is not
  modelled. TIMEOUT is simply cleared.
- Root.RootController.Execute: the exact hardware-event log is not stated.
  The ensures gives only the final mode, the cleared timer and the
  configuration invariant.
- Wire.DecimalString: the 16-bit `int` of the firmware is not modelled.
  `atoi`, `itoa` and `hi*256 + lo` work on unbounded integers, so values
  above 32767 are not wrapped.
- Wire.SplitWord: the round trip is stated for 0 <= v < 65536 on unbounded
  integers. With the firmware's 16-bit `int`, a value above 32767 wraps to a
  negative number before it is split. `w id a 40000` then holds -25536, and
  truncating division sends the high byte 157 where 156 is meant. The model
  does not capture that wrap.
- Root.AngleRoundTrip: stated for 0 <= v < 65536 on unbounded integers. In
  the firmware the `int` holding `hi*256 + lo` is 16 bits wide, so a
  position above 32767 is printed by `r id a` as a negative number.
- Root.RootController.DiscoveryRound: after an enrolment whose every ping
  fails, the firmware has stopped the receive timer and set TIMEOUT to 0
  (`Thesis_Master/main.c:195-196`, `Thesis_Master/main.c:255-256`). The next
  `validTransmission` (`Thesis_Master/main.c:821`) then ends only on a frame,
  so on a silent bus it waits forever and MAX_TIMEOUTS is never reached. In
  the model the polls keep ticking, so that round times out and is counted.
- The forced `TIMEOUT = RX_TIMEOUT_DURATION` writes that leave nested loops
  are modelled as an explicit exit flag.
- The nested polling loops are one loop with a stage variable.
