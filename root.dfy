/** The root controller: the globals of the bus protocol, the hardware it
    talks through, and the operations that drive discovery and serve the host. */
module Root {
  import opened Wire
  import opened Recogniser
  import opened Modes
  import opened Listening
  import opened Readback
  import opened Commands

  /** Consecutive receive timeouts that end discovery. */
  const MaxTimeouts: int := 50
  /** Pings tried on a module whose address assignment went unanswered. */
  const PingTries: int := 5
  /** Timer value discovery waits for between Hellos while no module is known. */
  const InitWaitTime: int := 50
  /** Module count at which discovery stops saying Hello. */
  const MaxModules: int := 250
  /** The character the root reports as its own module type. */
  const TypeChar: char := '2'

  /** `k` copies of a frame, one after the other. */
  function Repeat(frame: seq<Byte>, k: nat): (r: seq<Byte>)
    ensures |r| == k * |frame|
  {
    if k == 0 then [] else Repeat(frame, k - 1) + frame
  }

  /** Modules a probe found: the pings that were answered, in order. */
  function Found(answered: seq<bool>): (n: nat)
    ensures n <= |answered|
  {
    if answered == [] then 0
    else Found(answered[..|answered| - 1]) + (if answered[|answered| - 1] then 1 else 0)
  }

  /** The probe's loop counter after a run of pings: an answer resets it to
      0 just before the loop adds one, a miss adds one. */
  function MissRun(answered: seq<bool>): (n: nat)
    ensures n <= |answered|
  {
    if answered == [] then 0
    else if answered[|answered| - 1] then 1
    else MissRun(answered[..|answered| - 1]) + 1
  }

  /** The unanswered pings at the end of a run. */
  function TrailingMisses(answered: seq<bool>): nat
  {
    if answered == [] || answered[|answered| - 1] then 0
    else TrailingMisses(answered[..|answered| - 1]) + 1
  }

  /** The counter is the run of misses since the last answer, plus one once
      some module has answered: so the probe gives up after PingTries misses
      when nothing has answered, and after PingTries - 1 once something has. */
  lemma {:induction false} MissRunCounts(answered: seq<bool>)
    ensures MissRun(answered) == TrailingMisses(answered) + (if Found(answered) > 0 then 1 else 0)
    decreases |answered|
  {
    if answered != [] && !answered[|answered| - 1] {
      MissRunCounts(answered[..|answered| - 1]);
    }
  }

  /** The pings a probe starting at address `first` sends: each goes to the
      first address not yet found. */
  function ProbePings(first: int, answered: seq<bool>): seq<Byte>
  {
    if answered == [] then []
    else
      var earlier := answered[..|answered| - 1];
      ProbePings(first, earlier) + PingFrame(first + Found(earlier))
  }

  /** One more ping of a probe: how the count, the counter and the pings sent move on. */
  lemma ProbeStep(first: int, answered: seq<bool>, ok: bool)
    requires MissRun(answered) < PingTries
    requires forall k | 0 <= k < |answered| :: MissRun(answered[..k]) < PingTries
    ensures Found(answered + [ok]) == Found(answered) + (if ok then 1 else 0)
    ensures MissRun(answered + [ok]) == if ok then 1 else MissRun(answered) + 1
    ensures ProbePings(first, answered + [ok]) == ProbePings(first, answered) + PingFrame(first + Found(answered))
    ensures forall k | 0 <= k < |answered| + 1 :: MissRun((answered + [ok])[..k]) < PingTries
  {
    ProbeUnfold(first, answered, ok);
    ProbePrefixes(answered, ok);
  }

  /** Found, MissRun and ProbePings, one ping further on. */
  lemma ProbeUnfold(first: int, answered: seq<bool>, ok: bool)
    ensures Found(answered + [ok]) == Found(answered) + (if ok then 1 else 0)
    ensures MissRun(answered + [ok]) == if ok then 1 else MissRun(answered) + 1
    ensures ProbePings(first, answered + [ok]) == ProbePings(first, answered) + PingFrame(first + Found(answered))
  {
    assert (answered + [ok])[..|answered|] == answered;
  }

  /** A probe that has not given up yet still has not after one more ping's prefix. */
  lemma ProbePrefixes(answered: seq<bool>, ok: bool)
    requires MissRun(answered) < PingTries
    requires forall k | 0 <= k < |answered| :: MissRun(answered[..k]) < PingTries
    ensures forall k | 0 <= k < |answered| + 1 :: MissRun((answered + [ok])[..k]) < PingTries
  {
    forall k | 0 <= k < |answered| + 1
      ensures MissRun((answered + [ok])[..k]) < PingTries
    {
      if k == |answered| {
        assert (answered + [ok])[..k] == answered;
      } else {
        assert (answered + [ok])[..k] == answered[..k];
      }
    }
  }

  /** What a host command puts on the repeaters. */
  function Sent(c: Command): seq<Byte>
  {
    match c
    case WriteAngle(id, v) => ServoPacket(id, 5, WriteServo, GoalPositionAddress, [LowByte(v), HighByte(v)])
    case WritePower(id, v) => ServoPacket(id, 4, WriteServo, TorqueEnableAddress, [v])
    case WriteSpeed(id, v) =>
      if v != 0 then ServoPacket(id, 5, WriteServo, MovingSpeedAddress, [LowByte(v), HighByte(v)]) else []
    case ReadAngle(id) => ServoPacket(id, 4, ReadServo, PresentPositionAddress, [2])
    case ReadPower(id) => ServoPacket(id, 4, ReadServo, TorqueEnableAddress, [1])
    case ReadType(id) => if id == 0 then [] else PingFrame(id)
    case ReadChild(id) => if id == 0 then [] else PingFrame(id)
    case _ => []
  }

  /** What a host command answers and what it leaves of the input and the command registers. */
  datatype Reaction = Reaction(line: string, rest: seq<Poll>, regs: Registers)

  /** `r id t` and `r id c` for a module: ping it and, when it answers, report
      the PARAM byte at `index` of its answer. */
  function ModuleReport(id: Byte, index: nat, regs: Registers, rx: seq<Poll>, tuned: bool): (r: Reaction)
    requires index < |regs.params|
    ensures |r.regs.params| == |regs.params|
  {
    var reply := AwaitReply(PingByte, id, regs, rx, 0, tuned);
    Reaction(if reply.matched then [reply.regs.params[index] as char, '\n'] else [], reply.rest, reply.regs)
  }

  /** The host-visible outcome of a command, given the module count, CHILD,
      the command registers and the input. Every wait starts from a fresh timer. */
  function React(c: Command, count: nat, child: char, regs: Registers, rx: seq<Poll>): (r: Reaction)
    requires |regs.params| == ParamCapacity
    ensures |r.regs.params| == ParamCapacity
  {
    var tuned := IsPort(child);
    match c
    case Count => Reaction(DecimalString(count) + "\n", rx, regs)
    case ReadAngle(id) =>
      var a := AngleScan(id, false, rx, 0, tuned);
      Reaction(a.line, a.rest, regs)
    case ReadPower(id) =>
      var a := PowerScan(id, AwaitId, 0, rx, 0, tuned);
      Reaction(a.line, a.rest, regs)
    case ReadType(id) =>
      if id == 0 then Reaction([TypeChar, '\n'], rx, regs) else ModuleReport(id, 0, regs, rx, tuned)
    case ReadChild(id) =>
      if id == 0 then Reaction([child, '\n'], rx, regs) else ModuleReport(id, 1, regs, rx, tuned)
    case _ => Reaction([], rx, regs)
  }

  /* ---------------- What the host sees ---------------- */

  /** `n` answers the module count as a decimal line, which reads back as the count. */
  lemma CountReadsBack(count: nat, child: char, regs: Registers, rx: seq<Poll>)
    requires |regs.params| == ParamCapacity
    ensures var r := React(Count, count, child, regs, rx);
      && |r.line| >= 2 && r.line[|r.line| - 1] == '\n'
      && Atoi(r.line[..|r.line| - 1]) == count
      && r.rest == rx && r.regs == regs
  {
    var r := React(Count, count, child, regs, rx);
    assert r.line[..|r.line| - 1] == DecimalString(count);
    AtoiOfDecimal(count);
  }

  /** A module `id` that answers the ping with the parameters `ps` (none of
      them zero) has its parameter at `index` reported, and the answer is
      left in the command registers. */
  lemma ModuleReports(id: Byte, index: nat, regs: Registers, ps: seq<Byte>, more: seq<Poll>)
    requires id != 0 && id != StartTransmit && EndTransmit !in ps && 0 !in ps
    requires index < |ps| && index < |regs.params|
    ensures var r := ModuleReport(id, index, regs, Quiet(ControlFrame(id, ParentId, PingByte, ps)) + more, true);
      && r.line == [ps[index] as char, '\n']
      && r.regs.source == id && r.regs.ctype == PingByte
      && r.rest == Quiet([EndTransmit]) + more
  {
    ReplyMatched(PingByte, id, regs, ps, more, 0);
    NonZeroKeeps(ps);
    WriteFromReads(regs.params, 0, ps, index);
  }

  /** `r id t` and `r id c` for a module that answers with its type and its
      child port: the host gets the type, respectively the port. */
  lemma QueriesReported(id: Byte, count: nat, child: char, regs: Registers, typ: Byte, port: Byte, more: seq<Poll>)
    requires IsPort(child) && |regs.params| == ParamCapacity
    requires id != 0 && id != StartTransmit
    requires typ != 0 && typ != EndTransmit && port != 0 && port != EndTransmit
    ensures var rx := Quiet(ControlFrame(id, ParentId, PingByte, [typ, port])) + more;
      && React(ReadType(id), count, child, regs, rx).line == [typ as char, '\n']
      && React(ReadChild(id), count, child, regs, rx).line == [port as char, '\n']
  {
    ModuleReports(id, 0, regs, [typ, port], more);
    ModuleReports(id, 1, regs, [typ, port], more);
  }

  /** Module queries on a silent bus answer nothing. */
  lemma SilentModule(c: Command, count: nat, child: char, regs: Registers)
    requires |regs.params| == ParamCapacity
    requires (c.ReadType? || c.ReadChild?) && c.id != 0
    ensures React(c, count, child, regs, []).line == []
  {
    SilentReply(PingByte, c.id, regs, 0, IsPort(child));
  }

  /** Before a child port is known the root hears nothing: every query that
      needs an answer from the bus answers nothing, and only the root's own
      type and CHILD (`r 0 t`, `r 0 c`) are reported. */
  lemma DeafWithoutChild(c: Command, count: nat, regs: Registers, rx: seq<Poll>)
    requires |regs.params| == ParamCapacity
    requires c.ReadAngle? || c.ReadPower? || ((c.ReadType? || c.ReadChild?) && c.id != 0)
    ensures React(c, count, NoChild, regs, rx).line == []
  {
    match c
    case ReadAngle(id) => AngleUnheard(id, false, rx, 0);
    case ReadPower(id) => PowerUnheard(id, AwaitId, 0, rx, 0);
    case ReadType(id) => UntunedReply(PingByte, id, regs, rx, 0);
    case ReadChild(id) => UntunedReply(PingByte, id, regs, rx, 0);
  }

  /** The reads of `r id a` and `r id p` are their reply scans from a fresh timer. */
  lemma ReadsScan(id: Byte, count: nat, child: char, regs: Registers, rx: seq<Poll>)
    requires |regs.params| == ParamCapacity
    ensures React(ReadAngle(id), count, child, regs, rx).line == AngleScan(id, false, rx, 0, IsPort(child)).line
    ensures React(ReadPower(id), count, child, regs, rx).line == PowerScan(id, AwaitId, 0, rx, 0, IsPort(child)).line
  {
  }

  /** Where `w id a v` puts the goal in its frame. */
  lemma AngleFrame(id: Byte, v: int)
    ensures var f := Sent(WriteAngle(id, v));
      |f| == 9 && f[6] == LowByte(v) && f[7] == HighByte(v)
  {
    var f := Sent(WriteAngle(id, v));
    ServoPacketChecks(id, 5, WriteServo, GoalPositionAddress, [LowByte(v), HighByte(v)]);
    assert f[6..|f| - 1] == [LowByte(v), HighByte(v)];
  }

  /** `r id a` answered by servo `id` with position bytes `lo` and `hi` reports the position. */
  lemma AngleReported(id: Byte, lo: Byte, hi: Byte, count: nat, child: char, regs: Registers, more: seq<Poll>)
    requires IsPort(child) && |regs.params| == ParamCapacity
    ensures React(ReadAngle(id), count, child, regs, Quiet(ServoReply(id, 0, [lo, hi])) + more).line
         == DecimalString(Word(lo, hi)) + "\n"
  {
    AngleReadBack(id, lo, hi, more, 0);
    ReadsScan(id, count, child, regs, Quiet(ServoReply(id, 0, [lo, hi])) + more);
  }

  /** `w id a v` then `r id a` once servo `id` holds the goal: the write
      carries the goal as its low and high byte, and the read reports the
      goal back in decimal. */
  lemma AngleRoundTrip(id: Byte, v: int, count: nat, child: char, regs: Registers, more: seq<Poll>)
    requires 0 <= v < 65536 && IsPort(child) && |regs.params| == ParamCapacity
    ensures var f := Sent(WriteAngle(id, v));
      && |f| == 9 && Word(f[6], f[7]) == v
      && React(ReadAngle(id), count, child, regs, Quiet(ServoReply(id, 0, [f[6], f[7]])) + more).line
         == DecimalString(v) + "\n"
  {
    AngleFrame(id, v);
    SplitWord(v, 0, 0);
    AngleReported(id, LowByte(v), HighByte(v), count, child, regs, more);
  }

  /** `w id p v` then `r id p` for a torque setting of 0 or 1: the write
      carries the setting, and the read reports it back, for every id but two
      the checksum heuristic gets wrong: for 251 the value byte 1 equals the
      checksum it expects (PowerMisread), and for 252 a torque of 0 gives a
      checksum of 0, which it skips (PowerSkipped). */
  lemma PowerRoundTrip(id: Byte, v: Byte, count: nat, child: char, regs: Registers, more: seq<Poll>)
    requires v <= 1 && id != 251 && id != 252 && IsPort(child) && |regs.params| == ParamCapacity
    ensures var f := Sent(WritePower(id, v));
      && |f| == 8 && f[6] == v
      && React(ReadPower(id), count, child, regs, Quiet(ServoReply(id, 0, [f[6]])) + more).line
         == [DigitChar(v), '\n']
  {
    var f := Sent(WritePower(id, v));
    ServoPacketChecks(id, 4, WriteServo, TorqueEnableAddress, [v]);
    assert f[6..|f| - 1] == [v];
    PowerReadBack(id, v, more, 0);
    ReadsScan(id, count, child, regs, Quiet(ServoReply(id, 0, [v])) + more);
  }

  /** Every servo instruction a host command sends starts with two 0xFF
      bytes, addresses the command's servo and carries a checksum that
      brings its fields to 255 modulo 256; module queries send a ping, and
      everything else sends nothing. */
  lemma SentWellFormed(c: Command)
    ensures var f := Sent(c);
      || f == []
      || ((c.ReadType? || c.ReadChild?) && f == PingFrame(c.id))
      || (&& (c.WriteAngle? || c.WritePower? || c.WriteSpeed? || c.ReadAngle? || c.ReadPower?)
          && |f| >= 8 && f[..3] == [ServoStart, ServoStart, c.id] && Sum(f[2..]) % 256 == 255)
  {
    match c
    case WriteAngle(id, v) =>
      ServoPacketChecks(id, 5, WriteServo, GoalPositionAddress, [LowByte(v), HighByte(v)]);
    case WritePower(id, v) =>
      ServoPacketChecks(id, 4, WriteServo, TorqueEnableAddress, [v]);
    case WriteSpeed(id, v) =>
      ServoPacketChecks(id, 5, WriteServo, MovingSpeedAddress, [LowByte(v), HighByte(v)]);
    case ReadAngle(id) =>
      ServoPacketChecks(id, 4, ReadServo, PresentPositionAddress, [2]);
    case ReadPower(id) =>
      ServoPacketChecks(id, 4, ReadServo, TorqueEnableAddress, [1]);
    case _ =>
  }

  class RootController {
    /** TIMEOUT: the tick counter of the running timer. */
    var timeout: int
    /** NUM_MODULES: modules discovered so far. */
    var numModules: int
    /** STATE: the loaded mode, 0 before the first switch. */
    var state: int
    /** CHILD: the port the first child answers on, NUL before it is known. */
    var child: char
    var commandSource: Byte
    /** Never written by the root: it stays PARENT_ID. */
    var commandDestination: Byte
    var commandType: Byte
    /** PARAM: parameter bytes of the last frame received. */
    const param: array<Byte>

    /** What the receive ports will return, read by read. */
    var rx: seq<Poll>
    /** Bytes put on the two transmit repeaters. */
    var tx14: seq<Byte>
    var tx23: seq<Byte>
    /** Bus and configuration events, in order. */
    var hw: seq<HwEvent>
    /** Characters sent to the host. */
    var host: string

    predicate Valid()
      reads this`commandDestination, this`timeout, this`numModules, this`hw, this`state, this`child
    {
      && param.Length == ParamCapacity
      && commandDestination == ParentId
      && timeout >= 0
      && numModules >= 0
      && OneConfigLoaded(hw, state)
      && (child == NoChild || IsPort(child))
    }

    /** The command registers validTransmission writes. */
    function Regs(): (r: Registers)
      reads this`commandSource, this`commandType, param
      ensures |r.params| == param.Length
    {
      Registers(commandSource, commandType, param[..])
    }

    /** Power-up: every global is zero, nothing is loaded, nothing has been sent. */
    constructor(input: seq<Poll>)
      ensures Valid()
      ensures timeout == 0 && numModules == 0 && state == NoMode && child == NoChild
      ensures commandSource == 0 && commandType == 0 && param[..] == seq(ParamCapacity, _ => 0)
      ensures rx == input && tx14 == [] && tx23 == [] && hw == [] && host == []
    {
      timeout := 0;
      numModules := 0;
      state := NoMode;
      child := NoChild;
      commandSource := 0;
      commandDestination := ParentId;
      commandType := 0;
      param := new Byte[ParamCapacity](_ => 0);
      rx := input;
      tx14 := [];
      tx23 := [];
      hw := [];
      host := [];
    }

    /* ---------------- Reading and writing the ports ---------------- */

    /** One non-blocking read of a receive port (a read with no port selected returns 0). */
    method ReadPort(tuned: bool) returns (b: Byte)
      modifies this`rx, this`timeout
      ensures var p := NextPoll(old(rx), old(timeout), tuned);
        b == p.b && rx == p.rest && timeout == p.t
      ensures !tuned ==> b == 0
    {
      if rx == [] {
        b := 0;
        timeout := timeout + 1;
      } else {
        b := if tuned then rx[0].data else 0;
        if rx[0].tick {
          timeout := timeout + 1;
        }
        rx := rx[1..];
      }
    }

    /** `iReadChar`: read the CHILD port, or return 0 when CHILD names no port. */
    method IReadChar() returns (b: Byte)
      modifies this`rx, this`timeout
      ensures var p := NextPoll(old(rx), old(timeout), IsPort(child));
        b == p.b && rx == p.rest && timeout == p.t
      ensures !IsPort(child) ==> b == 0
    {
      if IsPort(child) {
        b := ReadPort(true);
      } else {
        b := ReadPort(false);
      }
    }

    /** `readChar`: the blocking read of the CHILD port, or 0 when CHILD names no port. */
    method ReadChar() returns (b: Byte)
      modifies this`rx, this`timeout
      ensures var p := NextPoll(old(rx), old(timeout), IsPort(child));
        b == p.b && rx == p.rest && timeout == p.t
      ensures !IsPort(child) ==> b == 0
    {
      b := IReadChar();
    }

    /** Put a frame on both transmit repeaters. */
    method Transmit(frame: seq<Byte>)
      modifies this`tx14, this`tx23
      ensures tx14 == old(tx14) + frame && tx23 == old(tx23) + frame
    {
      tx14 := tx14 + frame;
      tx23 := tx23 + frame;
    }

    /** `servoInstruction`: a short instruction packet with its checksum. */
    method ServoInstruction(id: Byte, length: Byte, instruction: Byte, address: Byte, value: Byte)
      modifies this`tx14, this`tx23
      ensures tx14 == old(tx14) + ServoPacket(id, length, instruction, address, [value])
      ensures tx23 == old(tx23) + ServoPacket(id, length, instruction, address, [value])
    {
      var total := id + length + instruction + address + value;
      var checksum := 255 - total % 256;
      SumOfFive(id, length, instruction, address, value);
      assert [id, length, instruction, address] + [value] == [id, length, instruction, address, value];
      Transmit([ServoStart, ServoStart, id, length, instruction, address, value, checksum]);
    }

    /** `longServoInstruction`: the same with two value bytes. */
    method LongServoInstruction(id: Byte, length: Byte, instruction: Byte, address: Byte, value1: Byte, value2: Byte)
      modifies this`tx14, this`tx23
      ensures tx14 == old(tx14) + ServoPacket(id, length, instruction, address, [value1, value2])
      ensures tx23 == old(tx23) + ServoPacket(id, length, instruction, address, [value1, value2])
    {
      var total := id + length + instruction + address + value1 + value2;
      var checksum := 255 - total % 256;
      SumOfSix(id, length, instruction, address, value1, value2);
      assert [id, length, instruction, address] + [value1, value2] == [id, length, instruction, address, value1, value2];
      Transmit([ServoStart, ServoStart, id, length, instruction, address, value1, value2, checksum]);
    }

    /* ---------------- The mode switch ---------------- */

    /** `unloadConfig`. */
    method UnloadConfig(n: int)
      modifies this`hw
      ensures hw == old(hw) + UnloadConfigEvents(n)
    {
      if n == PcMode {
        hw := hw + [Unload(PcListener)];
      } else if n == RxMode {
        hw := hw + [Unload(Receiver)];
      }
    }

    /** `unloadAllConfigs`. */
    method UnloadAllConfigs()
      modifies this`hw
      ensures hw == old(hw) + UnloadAllEvents()
    {
      hw := hw + [Unload(PcListener)];
      hw := hw + [Unload(Receiver)];
    }

    /** `configToggle`: leave the bus, unload the configuration of STATE (all
        of them when STATE is 0), load the one of `mode` with a fresh timer,
        rejoin the bus. Switching to PC or RX mode keeps exactly one
        configuration loaded, the one of the new STATE. */
    method ConfigToggle(mode: int)
      modifies this`hw, this`state, this`timeout
      ensures hw == old(hw) + ToggleEvents(old(state), mode)
      ensures state == ToggledState(old(state), mode)
      ensures timeout == if IsMode(mode) then 0 else old(timeout)
      ensures IsMode(mode) && OneConfigLoaded(old(hw), old(state)) ==> OneConfigLoaded(hw, state)
    {
      ghost var log := hw;
      hw := hw + [ReleaseBus];
      if state != NoMode {
        UnloadConfig(state);
      } else {
        UnloadAllConfigs();
      }
      if mode == PcMode {
        hw := hw + [Load(PcListener)];
        timeout := 0;
        state := PcMode;
      } else if mode == RxMode {
        hw := hw + [Load(Receiver)];
        timeout := 0;
        state := RxMode;
      }
      hw := hw + [EngageBus];
      if IsMode(mode) && OneConfigLoaded(log, old(state)) {
        ToggleLoadsOne(log, old(state), mode);
      }
    }

    /** The common shape of `sayHello`, `pingModule` and `assignID`: switch
        to PC mode, send the frame on both repeaters, switch to RX mode. */
    method Announce(frame: seq<Byte>)
      requires Valid()
      modifies this`tx14, this`tx23, this`hw, this`state, this`timeout
      ensures Valid() && state == RxMode && timeout == 0
      ensures tx14 == old(tx14) + frame && tx23 == old(tx23) + frame
      ensures hw == old(hw) + ToggleEvents(old(state), PcMode) + ToggleEvents(PcMode, RxMode)
    {
      ConfigToggle(PcMode);
      Transmit(frame);
      ConfigToggle(RxMode);
    }

    /** `sayHello`: broadcast a Hello to unconfigured modules, then listen. */
    method SayHello()
      requires Valid()
      modifies this`tx14, this`tx23, this`hw, this`state, this`timeout
      ensures Valid() && state == RxMode && timeout == 0
      ensures tx14 == old(tx14) + HelloFrame() && tx23 == old(tx23) + HelloFrame()
      ensures hw == old(hw) + ToggleEvents(old(state), PcMode) + ToggleEvents(PcMode, RxMode)
    {
      Announce(HelloFrame());
    }

    /* ---------------- Receiving frames ---------------- */

    /** `validTransmission`: poll the CHILD port until a whole frame is read
        or the timer runs out, storing its source, type and parameters. */
    method ValidTransmission() returns (ok: bool)
      requires param.Length == ParamCapacity
      modifies this`rx, this`timeout, this`commandSource, this`commandType, param
      ensures var r := Recognise(old(Regs()), old(rx), old(timeout), IsPort(child));
        && ok == (r.s.stage == Accepted)
        && Regs() == r.s.regs && rx == r.rest && timeout == r.t
      ensures timeout >= old(timeout) && |rx| <= |old(rx)|
      ensures ok ==> |rx| < |old(rx)|
      ensures !ok ==> timeout >= RxTimeoutDuration
      ensures old(timeout) < RxTimeoutDuration && old(rx) != [] ==> |rx| < |old(rx)|
      ensures old(timeout) >= RxTimeoutDuration ==> !ok && rx == old(rx) && timeout == old(timeout)
    {
      ghost var goal := Recognise(Regs(), rx, timeout, IsPort(child));
      var stage := AwaitStart;
      var i: nat := 0;
      while stage != Accepted && timeout < RxTimeoutDuration
        invariant i <= param.Length
        invariant Receive(Scanner(stage, Regs(), i), rx, timeout, IsPort(child)) == goal
        decreases |rx|, RxTimeoutDuration - timeout
      {
        ghost var before := Scanner(stage, Regs(), i);
        var b := IReadChar();
        match stage {
          case AwaitStart =>
            if b == StartTransmit {
              stage := AwaitSource;
            }
          case AwaitSource =>
            if b != 0 && b != StartTransmit {
              commandSource := b;
              stage := AwaitType;
            }
          case AwaitType =>
            if b >= CommandTypeSpace {
              commandType := b;
              stage := InParams;
            }
          case InParams =>
            if b != 0 {
              if b != EndTransmit {
                if i < param.Length {
                  param[i] := b;
                  i := i + 1;
                }
              } else {
                stage := Accepted;
              }
            }
          case Accepted =>
        }
        assert Scanner(stage, Regs(), i) == Feed(before, b);
      }
      ok := stage == Accepted;
    }

    /** The listening loop of `pingModule` and `assignID`: receive frames
        until one of type `cmd` from `from` arrives or the timer runs out; on
        a timeout stop the receive timer and clear TIMEOUT. */
    method ListenForReply(cmd: Byte, from: int) returns (ok: bool)
      requires Valid()
      modifies this`rx, this`timeout, this`commandSource, this`commandType, param, this`hw
      ensures Valid()
      ensures var r := AwaitReply(cmd, from, old(Regs()), old(rx), old(timeout), IsPort(child));
        && ok == r.matched && rx == r.rest && Regs() == r.regs
        && timeout == (if ok then r.t else 0)
      ensures hw == old(hw) + (if ok then [] else [StopRxTimer])
    {
      ghost var goal := AwaitReply(cmd, from, Regs(), rx, timeout, IsPort(child));
      ok := false;
      while timeout < RxTimeoutDuration && !ok
        invariant param.Length == ParamCapacity && timeout >= old(timeout) && hw == old(hw)
        invariant !ok ==> AwaitReply(cmd, from, Regs(), rx, timeout, IsPort(child)) == goal
        invariant ok ==> goal == Reply(true, Regs(), rx, timeout)
        decreases |rx|, RxTimeoutDuration - timeout
      {
        var got := ValidTransmission();
        if got && commandType == cmd && commandDestination == ParentId && commandSource as int == from {
          ok := true;
        }
      }
      if !ok {
        StopTimerKeepsConfigs(hw, state);
        hw := hw + [StopRxTimer];
        timeout := 0;
      }
    }

    /** `pingModule`: ping module `m` and wait for its ping answer. */
    method PingModule(m: int) returns (ok: bool)
      requires Valid()
      modifies this`tx14, this`tx23, this`hw, this`state, this`timeout, this`rx, this`commandSource, this`commandType, param
      ensures Valid() && state == RxMode
      ensures tx14 == old(tx14) + PingFrame(m) && tx23 == old(tx23) + PingFrame(m)
      ensures var r := AwaitReply(PingByte, m, old(Regs()), old(rx), 0, IsPort(child));
        && ok == r.matched && rx == r.rest && Regs() == r.regs
        && timeout == (if ok then r.t else 0)
      ensures hw == old(hw) + ToggleEvents(old(state), PcMode) + ToggleEvents(PcMode, RxMode)
                   + (if ok then [] else [StopRxTimer])
    {
      ghost var regs0, rx0, hw0 := Regs(), rx, hw;
      Announce(PingFrame(m));
      assert Regs() == regs0 && rx == rx0 && timeout == 0;
      assert hw == hw0 + ToggleEvents(old(state), PcMode) + ToggleEvents(PcMode, RxMode);
      ok := ListenForReply(PingByte, m);
    }

    /** `assignID`: give the unconfigured module address `a` and wait for its acknowledgement. */
    method AssignID(a: int) returns (ok: bool)
      requires Valid()
      modifies this`tx14, this`tx23, this`hw, this`state, this`timeout, this`rx, this`commandSource, this`commandType, param
      ensures Valid() && state == RxMode
      ensures tx14 == old(tx14) + AssignFrame(a) && tx23 == old(tx23) + AssignFrame(a)
      ensures var r := AwaitReply(IdAssignOk, a, old(Regs()), old(rx), 0, IsPort(child));
        && ok == r.matched && rx == r.rest && Regs() == r.regs
        && timeout == (if ok then r.t else 0)
      ensures hw == old(hw) + ToggleEvents(old(state), PcMode) + ToggleEvents(PcMode, RxMode)
                   + (if ok then [] else [StopRxTimer])
    {
      ghost var regs0, rx0, hw0 := Regs(), rx, hw;
      Announce(AssignFrame(a));
      assert Regs() == regs0 && rx == rx0 && timeout == 0;
      assert hw == hw0 + ToggleEvents(old(state), PcMode) + ToggleEvents(PcMode, RxMode);
      ok := ListenForReply(IdAssignOk, a);
    }

    /* ---------------- Discovery ---------------- */

    /** The inner loop of `childListen` after a START on `port`: read that
        port until the timer runs out, naming it in CHILD on every END. */
    method DrainPort(port: char)
      modifies this`rx, this`timeout, this`child
      ensures var r := Drain(port, old(child), old(rx), old(timeout));
        child == r.child && rx == r.rest && timeout == r.t
    {
      ghost var goal := Drain(port, child, rx, timeout);
      while timeout < RxTimeoutDuration
        invariant Drain(port, child, rx, timeout) == goal
        decreases |rx|, RxTimeoutDuration - timeout
      {
        var b := ReadPort(true);
        if b == EndTransmit {
          child := port;
        }
      }
    }

    /** One pass of `childListen`: port 1, and each next port only when the
        one before gave no START. */
    method ProbePorts()
      modifies this`rx, this`timeout, this`child
      ensures var r := Probe(1, old(child), old(rx), old(timeout));
        child == r.child && rx == r.rest && timeout == r.t
    {
      var b := ReadPort(true);
      if b == StartTransmit {
        DrainPort(PortChar(1));
      } else {
        b := ReadPort(true);
        if b == StartTransmit {
          DrainPort(PortChar(2));
        } else {
          b := ReadPort(true);
          if b == StartTransmit {
            DrainPort(PortChar(3));
          } else {
            b := ReadPort(true);
            if b == StartTransmit {
              DrainPort(PortChar(4));
            }
          }
        }
      }
    }

    /** `childListen`: pass over the ports until the timer runs out. CHILD
        only ever becomes one of the four ports. */
    method ChildListen()
      requires Valid()
      modifies this`rx, this`timeout, this`child
      ensures Valid()
      ensures var r := Listen(old(child), old(rx), old(timeout));
        child == r.child && rx == r.rest && timeout == r.t
      ensures child == old(child) || IsPort(child)
    {
      ghost var goal := Listen(child, rx, timeout);
      ListenSetsPort(child, rx, timeout);
      while timeout < RxTimeoutDuration
        invariant Listen(child, rx, timeout) == goal
        invariant timeout >= old(timeout)
        decreases |rx|, RxTimeoutDuration - timeout
      {
        ProbePorts();
      }
    }

    /** One ping of the newest module, as the retry loop sees it: an answer
        leaves a ping from that module in the command registers. */
    method PingNewest() returns (ok: bool)
      requires Valid()
      modifies this`tx14, this`tx23, this`hw, this`state, this`timeout, this`rx, this`commandSource, this`commandType, param
      ensures Valid() && state == RxMode && |rx| <= |old(rx)|
      ensures tx14 == old(tx14) + PingFrame(numModules) && tx23 == old(tx23) + PingFrame(numModules)
      ensures ok ==> commandType == PingByte && commandSource as int == numModules
    {
      ok := PingModule(numModules);
    }

    /** One attempt of the retry loop, after `attempts` pings already sent. */
    method ConfirmOnce(ghost attempts: nat, ghost base14: seq<Byte>, ghost base23: seq<Byte>) returns (ok: bool)
      requires Valid()
      requires tx14 == base14 + Repeat(PingFrame(numModules), attempts)
      requires tx23 == base23 + Repeat(PingFrame(numModules), attempts)
      modifies this`tx14, this`tx23, this`hw, this`state, this`timeout, this`rx, this`commandSource, this`commandType, param
      ensures Valid() && state == RxMode && |rx| <= |old(rx)|
      ensures tx14 == base14 + Repeat(PingFrame(numModules), attempts + 1)
      ensures tx23 == base23 + Repeat(PingFrame(numModules), attempts + 1)
      ensures ok ==> commandType == PingByte && commandSource as int == numModules
    {
      ok := PingNewest();
    }

    /** The retry loop after an unanswered address assignment: ping the new
        module up to PingTries times, stopping at the first answer. */
    method ConfirmByPing() returns (confirmed: bool, ghost attempts: nat)
      requires Valid()
      modifies this`tx14, this`tx23, this`hw, this`state, this`timeout, this`rx, this`commandSource, this`commandType, param
      ensures Valid() && state == RxMode && |rx| <= |old(rx)|
      ensures 1 <= attempts <= PingTries && (!confirmed ==> attempts == PingTries)
      ensures tx14 == old(tx14) + Repeat(PingFrame(numModules), attempts)
      ensures tx23 == old(tx23) + Repeat(PingFrame(numModules), attempts)
      ensures confirmed ==> commandType == PingByte && commandSource as int == numModules
    {
      var i := 0;
      attempts := 0;
      while i < PingTries
        invariant Valid() && 0 <= i <= PingTries + 2 && |rx| <= |old(rx)|
        invariant i <= PingTries ==> attempts == i
        invariant i > 0 ==> state == RxMode
        invariant i > PingTries ==> i == PingTries + 2 && 1 <= attempts <= PingTries
                                    && commandType == PingByte && commandSource as int == numModules
        invariant tx14 == old(tx14) + Repeat(PingFrame(numModules), attempts)
        invariant tx23 == old(tx23) + Repeat(PingFrame(numModules), attempts)
        decreases PingTries - i
      {
        var ok := ConfirmOnce(attempts, old(tx14), old(tx23));
        attempts := attempts + 1;
        if ok {
          i := PingTries + 1;
        }
        i := i + 1;
      }
      confirmed := i != PingTries;
    }

    /** The answer to a Hello: count the new module, assign it the next
        address and, when the assignment goes unanswered, ping it; when every
        ping fails too, take the count back. */
    method Enrol() returns (registered: bool, ghost retries: nat)
      requires Valid()
      modifies this`numModules, this`tx14, this`tx23, this`hw, this`state, this`timeout, this`rx, this`commandSource, this`commandType, param
      ensures Valid() && state == RxMode && |rx| <= |old(rx)|
      ensures numModules == old(numModules) + (if registered then 1 else 0)
      ensures registered ==> commandSource as int == old(numModules) + 1
                             && (commandType == IdAssignOk || commandType == PingByte)
      ensures retries <= PingTries && (!registered ==> retries == PingTries)
      ensures tx14 == old(tx14) + AssignFrame(old(numModules) + 1) + Repeat(PingFrame(old(numModules) + 1), retries)
      ensures tx23 == old(tx23) + AssignFrame(old(numModules) + 1) + Repeat(PingFrame(old(numModules) + 1), retries)
    {
      numModules := numModules + 1;
      registered := AssignID(numModules);
      retries := 0;
      if !registered {
        registered, retries := ConfirmByPing();
        if !registered {
          numModules := numModules - 1;
        }
      }
    }

    /** One round of the discovery loop. `rounds` counts the consecutive
        timeouts; it is reset by every Hello and grows only on a timeout while
        some module is known. While the count is below MaxModules every
        timeout is followed by a new Hello. */
    method DiscoveryRound(timeouts: int) returns (timeouts': int, ghost retries: nat)
      requires Valid() && state == RxMode
      requires 0 <= timeouts < MaxTimeouts && (timeouts > 0 ==> numModules > 0)
      requires !(rx == [] && numModules == 0)
      modifies this`numModules, this`tx14, this`tx23, this`hw, this`state, this`timeout, this`rx, this`commandSource, this`commandType, param
      ensures Valid() && state == RxMode
      ensures var r := Recognise(old(Regs()), old(rx), old(timeout), IsPort(child));
        r.s.stage == Accepted && r.s.regs.ctype == HelloByte ==>
          && timeouts' == 0 && retries <= PingTries
          && (numModules == old(numModules) + 1 || (numModules == old(numModules) && retries == PingTries))
          && (numModules == old(numModules) + 1 ==> commandSource as int == numModules)
          && tx14 == old(tx14) + AssignFrame(old(numModules) + 1) + Repeat(PingFrame(old(numModules) + 1), retries)
          && tx23 == old(tx23) + AssignFrame(old(numModules) + 1) + Repeat(PingFrame(old(numModules) + 1), retries)
      ensures var r := Recognise(old(Regs()), old(rx), old(timeout), IsPort(child));
        r.s.stage == Accepted && r.s.regs.ctype != HelloByte ==>
          && numModules == old(numModules) && timeouts' == timeouts
          && tx14 == old(tx14) && tx23 == old(tx23) && hw == old(hw)
          && rx == r.rest && Regs() == r.s.regs
      ensures var r := Recognise(old(Regs()), old(rx), old(timeout), IsPort(child));
        r.s.stage != Accepted ==>
          && numModules == old(numModules) && rx == r.rest
          && timeouts' == timeouts + (if old(numModules) > 0 then 1 else 0)
          && tx14 == old(tx14) + (if old(numModules) < MaxModules then HelloFrame() else [])
          && tx23 == old(tx23) + (if old(numModules) < MaxModules then HelloFrame() else [])
      ensures 0 <= timeouts' <= MaxTimeouts && (timeouts' > 0 ==> numModules > 0)
      ensures timeouts' == 0 || timeouts' == timeouts || (timeouts' == timeouts + 1 && old(numModules) > 0)
      ensures numModules != old(numModules) ==> numModules == old(numModules) + 1 && timeouts' == 0
      ensures |rx| < |old(rx)|
           || (|rx| == |old(rx)| && timeouts' > timeouts)
           || (rx == old(rx) && timeouts' == timeouts && old(timeout) >= RxTimeoutDuration && timeout < RxTimeoutDuration)
    {
      timeouts' := timeouts;
      retries := 0;
      var got := ValidTransmission();
      if got {
        if commandType == HelloByte && commandDestination == ParentId {
          timeouts' := 0;
          var registered;
          registered, retries := Enrol();
        }
      } else if timeout >= RxTimeoutDuration {
        if numModules != 0 {
          timeouts' := timeouts + 1;
        } else if timeout < InitWaitTime {
          timeout := InitWaitTime;
        }
        if numModules < MaxModules {
          SayHello();
        }
      }
    }

    /** Ping the address after the last one counted, and count it when it answers. */
    method PingNext() returns (ok: bool)
      requires Valid() && state == RxMode
      modifies this`numModules, this`tx14, this`tx23, this`hw, this`state, this`timeout, this`rx, this`commandSource, this`commandType, param
      ensures Valid() && state == RxMode && |rx| <= |old(rx)|
      ensures numModules == old(numModules) + (if ok then 1 else 0)
      ensures tx14 == old(tx14) + PingFrame(old(numModules) + 1) && tx23 == old(tx23) + PingFrame(old(numModules) + 1)
      ensures ok ==> |rx| < |old(rx)| && commandType == PingByte && commandSource as int == numModules
      ensures old(rx) == [] ==> !ok && rx == []
    {
      SilentReply(PingByte, numModules + 1, Regs(), 0, IsPort(child));
      ok := PingModule(numModules + 1);
      if ok {
        numModules := numModules + 1;
      }
    }

    /** One step of the probe after the discovery loop, with its bookkeeping. `first`
        is the address the probe started at, `answered` the answers so far
        and `base14`, `base23` the repeater logs before the probe. */
    method ProbeOnce(ghost first: int, ghost answered: seq<bool>, ghost base14: seq<Byte>, ghost base23: seq<Byte>)
      returns (ok: bool)
      requires Valid() && state == RxMode
      requires numModules == first - 1 + Found(answered)
      requires tx14 == base14 + ProbePings(first, answered) && tx23 == base23 + ProbePings(first, answered)
      requires MissRun(answered) < PingTries
      requires forall k | 0 <= k < |answered| :: MissRun(answered[..k]) < PingTries
      modifies this`numModules, this`tx14, this`tx23, this`hw, this`state, this`timeout, this`rx, this`commandSource, this`commandType, param
      ensures Valid() && state == RxMode && |rx| <= |old(rx)|
      ensures numModules == first - 1 + Found(answered + [ok])
      ensures Found(answered + [ok]) == Found(answered) + (if ok then 1 else 0)
      ensures tx14 == base14 + ProbePings(first, answered + [ok]) && tx23 == base23 + ProbePings(first, answered + [ok])
      ensures MissRun(answered + [ok]) == if ok then 1 else MissRun(answered) + 1
      ensures forall k | 0 <= k < |answered + [ok]| :: MissRun((answered + [ok])[..k]) < PingTries
      ensures ok ==> |rx| < |old(rx)|
      ensures old(rx) == [] ==> !ok && rx == []
    {
      ok := PingNext();
      ProbeStep(first, answered, ok);
      assert old(numModules) + 1 == first + Found(answered);
      assert tx14 == (base14 + ProbePings(first, answered)) + PingFrame(first + Found(answered));
      assert tx23 == (base23 + ProbePings(first, answered)) + PingFrame(first + Found(answered));
    }

    /** The probe loop: ping the address after the last one counted,
        counting every answer, until the loop counter reaches PingTries;
        an answer sets the counter back. */
    method ProbeUpward() returns (ghost answered: seq<bool>)
      requires Valid() && state == RxMode
      modifies this`numModules, this`tx14, this`tx23, this`hw, this`state, this`timeout, this`rx, this`commandSource, this`commandType, param
      ensures Valid() && state == RxMode && |rx| <= |old(rx)|
      ensures numModules == old(numModules) + Found(answered)
      ensures tx14 == old(tx14) + ProbePings(old(numModules) + 1, answered)
      ensures tx23 == old(tx23) + ProbePings(old(numModules) + 1, answered)
      ensures MissRun(answered) == PingTries
      ensures forall k | 0 <= k < |answered| :: MissRun(answered[..k]) < PingTries
      ensures old(rx) == [] ==> numModules == old(numModules) && rx == []
    {
      answered := [];
      var i := 0;
      while i < PingTries
        invariant Valid() && state == RxMode && |rx| <= |old(rx)|
        invariant numModules == old(numModules) + Found(answered)
        invariant tx14 == old(tx14) + ProbePings(old(numModules) + 1, answered)
        invariant tx23 == old(tx23) + ProbePings(old(numModules) + 1, answered)
        invariant i == MissRun(answered)
        invariant forall k | 0 <= k < |answered| :: MissRun(answered[..k]) < PingTries
        invariant old(rx) == [] ==> Found(answered) == 0 && rx == []
        decreases |rx|, PingTries - i
      {
        var ok := ProbeOnce(old(numModules) + 1, answered, old(tx14), old(tx23));
        answered := answered + [ok];
        if ok {
          i := 0;
        }
        i := i + 1;
      }
    }

    /** The probe after the discovery loop, for modules configured earlier:
        when discovery counted none, ping upward from address 1. The
        discovery loop only ends without a module once the input is used up,
        and on a silent bus no ping is answered, so this finds nothing. */
    method ProbeExisting() returns (ghost answered: seq<bool>)
      requires Valid() && state == RxMode
      modifies this`numModules, this`tx14, this`tx23, this`hw, this`state, this`timeout, this`rx, this`commandSource, this`commandType, param
      ensures Valid() && state == RxMode && |rx| <= |old(rx)|
      ensures numModules == old(numModules) + Found(answered)
      ensures tx14 == old(tx14) + ProbePings(old(numModules) + 1, answered)
      ensures tx23 == old(tx23) + ProbePings(old(numModules) + 1, answered)
      ensures old(numModules) != 0 ==> answered == []
      ensures old(numModules) == 0 ==> MissRun(answered) == PingTries
      ensures forall k | 0 <= k < |answered| :: MissRun(answered[..k]) < PingTries
      ensures old(rx) == [] ==> numModules == old(numModules) && rx == []
    {
      answered := [];
      if numModules == 0 {
        answered := ProbeUpward();
      }
    }

    /** `initializeChildren`: say Hello until a child answers, then enrol
        modules until MaxTimeouts timeouts in a row, and return to PC mode.
        The model ends the search loops when the input runs out, where the
        firmware would go on forever. */
    method InitializeChildren()
      requires Valid()
      modifies this`numModules, this`child, this`tx14, this`tx23, this`hw, this`state, this`timeout, this`rx, this`commandSource, this`commandType, param
      ensures Valid() && state == PcMode && timeout == 0
      ensures IsPort(child) || rx == []
      ensures numModules > 0 || rx == []
    {
      numModules := 0;
      child := NoChild;
      while child == NoChild && rx != []
        invariant Valid() && numModules == 0
        decreases |rx|
      {
        SayHello();
        ChildListen();
      }
      SayHello();
      var timeouts := 0;
      while timeouts < MaxTimeouts && !(rx == [] && numModules == 0)
        invariant Valid() && state == RxMode
        invariant 0 <= timeouts <= MaxTimeouts && (timeouts > 0 ==> numModules > 0)
        invariant IsPort(child) || rx == []
        decreases |rx|, MaxTimeouts - timeouts, if timeout < RxTimeoutDuration then 0 else 1
      {
        ghost var retries;
        timeouts, retries := DiscoveryRound(timeouts);
      }
      ghost var answered := ProbeExisting();
      ConfigToggle(PcMode);
    }

    /* ---------------- Serving the host ---------------- */

    /** One pass of the reply scan of `r id a`: one read, and when it is the
        length byte 4 after the id, the error byte and the two position bytes;
        a zero error byte sends the position to the host, after the switch back
        to PC mode. */
    method AngleStep(id: Byte, idHeard: bool) returns (heard: bool, done: bool)
      requires Valid() && timeout < RxTimeoutDuration
      modifies this`hw, this`state, this`timeout, this`rx, this`host
      ensures Valid() && (state == old(state) || state == PcMode)
      ensures var a := AngleScan(id, idHeard, old(rx), old(timeout), IsPort(child));
        if done then host == old(host) + a.line && rx == a.rest
        else host == old(host) && AngleScan(id, heard, rx, timeout, IsPort(child)) == a
      ensures !done ==> |rx| < |old(rx)| || (rx == old(rx) && timeout > old(timeout))
    {
      var b := IReadChar();
      heard, done := idHeard, false;
      if !idHeard {
        heard := b == id;
      } else if b == 4 {
        var error := ReadChar();
        if error == 0 {
          var lo := ReadChar();
          var hi := ReadChar();
          ConfigToggle(PcMode);
          var total := hi as int * 256 + lo as int;
          host := host + DecimalString(total) + "\n";
        }
        done := true;
      }
    }

    /** The reply scan of `r id a`: wait for the id byte, then for the length
        byte 4, until the timer runs out. */
    method ScanAngle(id: Byte)
      requires Valid()
      modifies this`hw, this`state, this`timeout, this`rx, this`host
      ensures Valid() && (state == old(state) || state == PcMode)
      ensures var a := AngleScan(id, false, old(rx), old(timeout), IsPort(child));
        host == old(host) + a.line && rx == a.rest
    {
      ghost var goal := AngleScan(id, false, rx, timeout, IsPort(child));
      ghost var host0, state0 := host, state;
      var idHeard := false;
      var done := false;
      while timeout < RxTimeoutDuration && !done
        invariant Valid() && (state == state0 || state == PcMode)
        invariant !done ==> AngleScan(id, idHeard, rx, timeout, IsPort(child)) == goal && host == host0
        invariant done ==> host == host0 + goal.line && rx == goal.rest
        decreases if done then 0 else 1, |rx|, RxTimeoutDuration - timeout
      {
        idHeard, done := AngleStep(id, idHeard);
      }
    }

    /** `r id a`: ask servo `id` for its present position and scan its reply. */
    method ReadAngleCommand(id: Byte)
      requires Valid()
      modifies this`tx14, this`tx23, this`hw, this`state, this`timeout, this`rx, this`host
      ensures Valid() && (state == PcMode || state == RxMode)
      ensures var a := AngleScan(id, false, old(rx), 0, IsPort(child));
        host == old(host) + a.line && rx == a.rest
      ensures tx14 == old(tx14) + ServoPacket(id, 4, ReadServo, PresentPositionAddress, [2])
      ensures tx23 == old(tx23) + ServoPacket(id, 4, ReadServo, PresentPositionAddress, [2])
    {
      ServoInstruction(id, 4, ReadServo, PresentPositionAddress, 2);
      ConfigToggle(RxMode);
      ScanAngle(id);
    }

    /** The reply scan of `r id p`: wait for the id byte (the running total
        starts at the id), then for the length byte 3, then judge the first
        non-zero byte against the running total. */
    method ScanPower(id: Byte)
      requires Valid()
      modifies this`hw, this`state, this`timeout, this`rx, this`host
      ensures Valid() && (state == old(state) || state == PcMode)
      ensures var a := PowerScan(id, AwaitId, 0, old(rx), old(timeout), IsPort(child));
        host == old(host) + a.line && rx == a.rest
    {
      ghost var goal := PowerScan(id, AwaitId, 0, rx, timeout, IsPort(child));
      ghost var host0, state0 := host, state;
      var phase := AwaitId;
      var runningTotal := 0;
      var done := false;
      while timeout < RxTimeoutDuration && !done
        invariant Valid() && (state == state0 || state == PcMode)
        invariant !done ==> PowerScan(id, phase, runningTotal, rx, timeout, IsPort(child)) == goal && host == host0
        invariant done ==> host == host0 + goal.line && rx == goal.rest
        decreases if done then 0 else 1, |rx|, RxTimeoutDuration - timeout
      {
        var b := IReadChar();
        match phase {
          case AwaitId =>
            if b == id {
              runningTotal := id;
              phase := AwaitLength;
            }
          case AwaitLength =>
            if b == 3 {
              runningTotal := runningTotal + 3;
              phase := AwaitValue;
            }
          case AwaitValue =>
            if b != 0 {
              ConfigToggle(PcMode);
              if runningTotal % 256 == 255 - b {
                host := host + "0\n";
              } else {
                host := host + "1\n";
              }
              done := true;
            }
        }
      }
    }

    /** `r id p`: ask servo `id` for its torque setting and scan its reply. */
    method ReadPowerCommand(id: Byte)
      requires Valid()
      modifies this`tx14, this`tx23, this`hw, this`state, this`timeout, this`rx, this`host
      ensures Valid() && (state == PcMode || state == RxMode)
      ensures var a := PowerScan(id, AwaitId, 0, old(rx), 0, IsPort(child));
        host == old(host) + a.line && rx == a.rest
      ensures tx14 == old(tx14) + ServoPacket(id, 4, ReadServo, TorqueEnableAddress, [1])
      ensures tx23 == old(tx23) + ServoPacket(id, 4, ReadServo, TorqueEnableAddress, [1])
    {
      ServoInstruction(id, 4, ReadServo, TorqueEnableAddress, 1);
      ConfigToggle(RxMode);
      ScanPower(id);
    }

    /** `r id t` and `r id c` for a module other than the root: ping it and
        report PARAM[index] of its answer. */
    method ReportModule(id: Byte, index: nat)
      requires Valid() && index < ParamCapacity
      modifies this`tx14, this`tx23, this`hw, this`state, this`timeout, this`rx, this`commandSource, this`commandType, param, this`host
      ensures Valid() && (state == PcMode || state == RxMode)
      ensures var r := ModuleReport(id, index, old(Regs()), old(rx), IsPort(child));
        host == old(host) + r.line && rx == r.rest && Regs() == r.regs
      ensures tx14 == old(tx14) + PingFrame(id) && tx23 == old(tx23) + PingFrame(id)
    {
      var ok := PingModule(id);
      if ok {
        ConfigToggle(PcMode);
        host := host + [param[index] as char, '\n'];
      }
    }

    /** `w id a v`, `w id p v` and `w id s v`: put the servo instruction on
        the repeaters (a speed of 0 sends nothing). */
    method PerformWrite(c: Command)
      requires c.WriteAngle? || c.WritePower? || c.WriteSpeed?
      modifies this`tx14, this`tx23
      ensures tx14 == old(tx14) + Sent(c) && tx23 == old(tx23) + Sent(c)
    {
      match c {
        case WriteAngle(id, v) =>
          LongServoInstruction(id, 5, WriteServo, GoalPositionAddress, LowByte(v), HighByte(v));
        case WritePower(id, v) =>
          ServoInstruction(id, 4, WriteServo, TorqueEnableAddress, v);
        case WriteSpeed(id, v) =>
          if v != 0 {
            LongServoInstruction(id, 5, WriteServo, MovingSpeedAddress, LowByte(v), HighByte(v));
          }
      }
    }

    /** `r id a`, `r id p`, `r id t` and `r id c`: the root answers `r 0 t`
        and `r 0 c` itself, and asks the bus for everything else. */
    method PerformQuery(c: Command)
      requires Valid()
      requires c.ReadAngle? || c.ReadPower? || c.ReadType? || c.ReadChild?
      modifies this`tx14, this`tx23, this`hw, this`state, this`timeout, this`rx, this`commandSource, this`commandType, param, this`host
      ensures Valid()
      ensures tx14 == old(tx14) + Sent(c) && tx23 == old(tx23) + Sent(c)
      ensures var r := React(c, numModules, child, old(Regs()), old(rx));
        host == old(host) + r.line && rx == r.rest && Regs() == r.regs
    {
      match c {
        case ReadAngle(id) =>
          ReadAngleCommand(id);
        case ReadPower(id) =>
          ReadPowerCommand(id);
        case ReadType(id) =>
          if id == 0 {
            host := host + [TypeChar, '\n'];
          } else {
            ReportModule(id, 0);
          }
        case ReadChild(id) =>
          if id == 0 {
            host := host + [child, '\n'];
          } else {
            ReportModule(id, 1);
          }
      }
    }

    /** What one parsed command does before the closing switch to PC mode. */
    method Perform(c: Command)
      requires Valid()
      modifies this`numModules, this`tx14, this`tx23, this`hw, this`state, this`timeout, this`rx, this`commandSource, this`commandType, param, this`host
      ensures Valid() && child == old(child)
      ensures numModules == if c.Reset? then 0 else old(numModules)
      ensures tx14 == old(tx14) + Sent(c) && tx23 == old(tx23) + Sent(c)
      ensures var r := React(c, old(numModules), child, old(Regs()), old(rx));
        host == old(host) + r.line && rx == r.rest && Regs() == r.regs
    {
      if c.Reset? {
        numModules := 0;
      } else if c.Count? {
        host := host + DecimalString(numModules) + "\n";
      } else if c.WriteAngle? || c.WritePower? || c.WriteSpeed? {
        PerformWrite(c);
      } else if !c.NoAction? {
        PerformQuery(c);
      }
    }

    /** The end of `decodeTransmission`: back to PC mode, TIMEOUT cleared. */
    method Settle()
      requires Valid()
      modifies this`tx14, this`tx23, this`hw, this`state, this`timeout
      ensures Valid() && state == PcMode && timeout == 0
      ensures tx14 == old(tx14) && tx23 == old(tx23)
    {
      if state != PcMode {
        ConfigToggle(PcMode);
      } else {
        timeout := 0;
      }
    }

    /** The body of `decodeTransmission` for one parsed command. Whatever the
        command, it ends in PC mode with TIMEOUT cleared. */
    method Execute(c: Command)
      requires Valid()
      modifies this`numModules, this`tx14, this`tx23, this`hw, this`state, this`timeout, this`rx, this`commandSource, this`commandType, param, this`host
      ensures Valid() && state == PcMode && timeout == 0
      ensures numModules == if c.Reset? then 0 else old(numModules)
      ensures tx14 == old(tx14) + Sent(c) && tx23 == old(tx23) + Sent(c)
      ensures var r := React(c, old(numModules), child, old(Regs()), old(rx));
        host == old(host) + r.line && rx == r.rest && Regs() == r.regs
    {
      Perform(c);
      Settle();
    }

    /** `decodeTransmission`: act on one tokenised host command line. */
    method DecodeTransmission(tokens: seq<string>)
      requires Valid()
      modifies this`numModules, this`tx14, this`tx23, this`hw, this`state, this`timeout, this`rx, this`commandSource, this`commandType, param, this`host
      ensures Valid() && state == PcMode && timeout == 0
      ensures var c := Parse(tokens);
        && numModules == (if c.Reset? then 0 else old(numModules))
        && tx14 == old(tx14) + Sent(c) && tx23 == old(tx23) + Sent(c)
        && var r := React(c, old(numModules), child, old(Regs()), old(rx));
           host == old(host) + r.line && rx == r.rest && Regs() == r.regs
    {
      Execute(Parse(tokens));
    }

    /** One pass of the firmware's main loop: with no module known run
        discovery, otherwise serve a host command when one is waiting. */
    method Step(commandReady: bool, tokens: seq<string>)
      requires Valid()
      modifies this`numModules, this`child, this`tx14, this`tx23, this`hw, this`state, this`timeout, this`rx, this`commandSource, this`commandType, param, this`host
      ensures Valid()
      ensures old(numModules) == 0 ==>
        state == PcMode && timeout == 0 && host == old(host)
        && (numModules > 0 || rx == []) && (IsPort(child) || rx == [])
      ensures old(numModules) != 0 && commandReady ==>
        var c := Parse(tokens);
        && state == PcMode && timeout == 0 && child == old(child)
        && numModules == (if c.Reset? then 0 else old(numModules))
        && tx14 == old(tx14) + Sent(c) && tx23 == old(tx23) + Sent(c)
        && var r := React(c, old(numModules), old(child), old(Regs()), old(rx));
           host == old(host) + r.line && rx == r.rest && Regs() == r.regs
      ensures old(numModules) != 0 && !commandReady ==>
        && numModules == old(numModules) && rx == old(rx) && host == old(host) && hw == old(hw)
        && tx14 == old(tx14) && tx23 == old(tx23) && state == old(state) && timeout == old(timeout)
        && child == old(child) && Regs() == old(Regs())
    {
      if numModules == 0 {
        InitializeChildren();
      } else if commandReady {
        DecodeTransmission(tokens);
      }
    }
  }
}
