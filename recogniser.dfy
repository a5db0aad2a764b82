/** The receive side of the control plane: what a listening port delivers, the
    frame recogniser run by `validTransmission`, and the reply wait that
    `pingModule` and `assignID` build on it. */
module Recogniser {
  import opened Wire

  /** Ticks of the timeout timer a receive wait may last. */
  const RxTimeoutDuration: int := 5
  /** Size of the PARAM buffer. */
  const ParamCapacity: nat := 10

  /** One read of a receive port: the byte it returned (0 when nothing had
      arrived) and whether the timeout timer ticked right after it. */
  datatype Poll = Poll(data: Byte, tick: bool)

  datatype Polled = Polled(b: Byte, rest: seq<Poll>, t: int)

  /** One read at timer value `t`. An untuned read (no port selected) returns 0.
      Once the input is used up the bus is silent and time still passes. */
  function NextPoll(rx: seq<Poll>, t: int, tuned: bool): (p: Polled)
    ensures |p.rest| < |rx| || (rx == [] && p.rest == [] && p.t == t + 1)
    ensures t <= p.t <= t + 1
  {
    if rx == [] then Polled(0, [], t + 1)
    else Polled(if tuned then rx[0].data else 0, rx[1..], if rx[0].tick then t + 1 else t)
  }

  /** The bytes a run of reads returned. */
  function Heard(polls: seq<Poll>, tuned: bool): (bs: seq<Byte>)
    ensures |bs| == |polls|
  {
    seq(|polls|, i requires 0 <= i < |polls| => if tuned then polls[i].data else 0)
  }

  /** Reads that deliver `bs` one byte each, with no timer tick in between. */
  function Quiet(bs: seq<Byte>): (rx: seq<Poll>)
    ensures |rx| == |bs|
  {
    seq(|bs|, i requires 0 <= i < |bs| => Poll(bs[i], false))
  }

  /* ---------------- The recogniser ---------------- */

  datatype Stage = AwaitStart | AwaitSource | AwaitType | InParams | Accepted

  /** The command registers the recogniser writes in place: COMMAND_SOURCE,
      COMMAND_TYPE and the PARAM buffer. */
  datatype Registers = Registers(source: Byte, ctype: Byte, params: seq<Byte>)

  /** The recogniser between two reads: its stage, the registers and the PARAM index. */
  datatype Scanner = Scanner(stage: Stage, regs: Registers, count: nat)

  /** The effect of one byte read. PARAM is written only below its capacity:
      a parameter byte beyond the buffer is dropped. */
  function Feed(s: Scanner, b: Byte): (r: Scanner)
    ensures b == 0 ==> r == s
    ensures |r.regs.params| == |s.regs.params|
    ensures s.count <= |s.regs.params| ==> r.count <= |r.regs.params|
  {
    match s.stage
    case AwaitStart =>
      if b == StartTransmit then s.(stage := AwaitSource) else s
    case AwaitSource =>
      if b != 0 && b != StartTransmit then s.(stage := AwaitType, regs := s.regs.(source := b)) else s
    case AwaitType =>
      if b >= CommandTypeSpace then s.(stage := InParams, regs := s.regs.(ctype := b)) else s
    case InParams =>
      if b == 0 then s
      else if b == EndTransmit then s.(stage := Accepted)
      else if s.count < |s.regs.params| then
        s.(regs := s.regs.(params := s.regs.params[s.count := b]), count := s.count + 1)
      else s
    case Accepted => s
  }

  /** The recogniser run over a whole byte sequence. */
  function FeedAll(s: Scanner, bs: seq<Byte>): Scanner
    decreases |bs|
  {
    if bs == [] then s else FeedAll(Feed(s, bs[0]), bs[1..])
  }

  datatype Received = Received(s: Scanner, rest: seq<Poll>, t: int)

  /** The polling loop of `validTransmission`: read until a frame is complete
      or the timer reaches RxTimeoutDuration. */
  function Receive(s: Scanner, rx: seq<Poll>, t: int, tuned: bool): (r: Received)
    ensures t <= r.t
    ensures t < RxTimeoutDuration ==> r.t <= RxTimeoutDuration
    ensures |r.rest| <= |rx|
    ensures r.s.stage == Accepted || r.t >= RxTimeoutDuration
    ensures s.stage != Accepted && r.s.stage == Accepted ==> |r.rest| < |rx|
    ensures s.stage != Accepted && t < RxTimeoutDuration && rx != [] ==> |r.rest| < |rx|
    ensures |r.s.regs.params| == |s.regs.params|
    ensures s.count <= |s.regs.params| ==> r.s.count <= |r.s.regs.params|
    decreases |rx|, RxTimeoutDuration - t
  {
    if s.stage == Accepted || t >= RxTimeoutDuration then Received(s, rx, t)
    else
      var p := NextPoll(rx, t, tuned);
      Receive(Feed(s, p.b), p.rest, p.t, tuned)
  }

  /** `validTransmission`: a fresh recogniser (PARAM index 0) over the registers left by the last call. */
  function Recognise(regs: Registers, rx: seq<Poll>, t: int, tuned: bool): Received
  {
    Receive(Scanner(AwaitStart, regs, 0), rx, t, tuned)
  }

  /* ---------------- Basic facts about the fold ---------------- */

  lemma {:induction false} FeedAllAppend(s: Scanner, xs: seq<Byte>, ys: seq<Byte>)
    ensures FeedAll(s, xs + ys) == FeedAll(FeedAll(s, xs), ys)
    decreases |xs|
  {
    if xs != [] {
      assert (xs + ys)[1..] == xs[1..] + ys;
      FeedAllAppend(Feed(s, xs[0]), xs[1..], ys);
    } else {
      assert xs + ys == ys;
    }
  }

  lemma {:induction false} AcceptedStays(s: Scanner, bs: seq<Byte>)
    requires s.stage == Accepted
    ensures FeedAll(s, bs) == s
    decreases |bs|
  {
    if bs != [] {
      AcceptedStays(Feed(s, bs[0]), bs[1..]);
    }
  }

  /** The bytes of the first `k` reads: the first read's byte, then those of the next `k - 1`. */
  lemma HeardFront(rx: seq<Poll>, k: nat, tuned: bool)
    requires 0 < k <= |rx|
    ensures Heard(rx[..k], tuned) == [if tuned then rx[0].data else 0] + Heard(rx[1..][..k - 1], tuned)
  {
    assert rx[..k][1..] == rx[1..][..k - 1];
  }

  /** Receive consumes a prefix of its input. */
  lemma {:induction false} ReceiveSuffix(s: Scanner, rx: seq<Poll>, t: int, tuned: bool)
    ensures var r := Receive(s, rx, t, tuned);
      r.rest == rx[|rx| - |r.rest|..]
    decreases |rx|, RxTimeoutDuration - t
  {
    if s.stage != Accepted && t < RxTimeoutDuration {
      var p := NextPoll(rx, t, tuned);
      ReceiveSuffix(Feed(s, p.b), p.rest, p.t, tuned);
    }
  }

  /** What Receive read is exactly what the recogniser was fed. */
  lemma {:induction false} ReceiveHears(s: Scanner, rx: seq<Poll>, t: int, tuned: bool)
    ensures var r := Receive(s, rx, t, tuned);
      var k := |rx| - |r.rest|;
      && r.rest == rx[k..]
      && r.s == FeedAll(s, Heard(rx[..k], tuned))
    decreases |rx|, RxTimeoutDuration - t
  {
    ReceiveSuffix(s, rx, t, tuned);
    var r := Receive(s, rx, t, tuned);
    if s.stage == Accepted || t >= RxTimeoutDuration || rx == [] {
      assert Heard(rx[..0], tuned) == [];
      if s.stage != Accepted && t < RxTimeoutDuration {
        var p := NextPoll(rx, t, tuned);
        ReceiveHears(Feed(s, p.b), p.rest, p.t, tuned);
      }
    } else {
      var p := NextPoll(rx, t, tuned);
      ReceiveHears(Feed(s, p.b), p.rest, p.t, tuned);
      var k := |rx| - |r.rest|;
      var k' := |p.rest| - |r.rest|;
      assert r == Receive(Feed(s, p.b), p.rest, p.t, tuned);
      assert p.rest == rx[1..] && p.b == (if tuned then rx[0].data else 0);
      HeardFront(rx, k, tuned);
      var tail := Heard(p.rest[..k'], tuned);
      FeedAllCons(s, p.b, tail);
    }
  }

  /** When Receive accepts, the last byte read is the one that completed the frame. */
  lemma {:induction false} ReceiveCompletes(s: Scanner, rx: seq<Poll>, t: int, tuned: bool)
    ensures var r := Receive(s, rx, t, tuned);
      var k := |rx| - |r.rest|;
      s.stage != Accepted && r.s.stage == Accepted ==>
        k > 0 && FeedAll(s, Heard(rx[..k - 1], tuned)).stage != Accepted
    decreases |rx|, RxTimeoutDuration - t
  {
    var r := Receive(s, rx, t, tuned);
    if rx != [] && s.stage != Accepted && t < RxTimeoutDuration && r.s.stage == Accepted {
      var p := NextPoll(rx, t, tuned);
      var k := |rx| - |r.rest|;
      if Feed(s, p.b).stage == Accepted {
        assert k == 1;
        assert Heard(rx[..0], tuned) == [];
      } else {
        ReceiveCompletes(Feed(s, p.b), p.rest, p.t, tuned);
        var k' := |p.rest| - |r.rest|;
        assert p.rest == rx[1..];
        HeardFront(rx, k - 1, tuned);
        FeedAllCons(s, p.b, Heard(p.rest[..k' - 1], tuned));
      }
    }
  }

  /* ---------------- The shape of a frame ---------------- */

  /** A frame as the recogniser reads it: bytes without START, a START, bytes
      that are 0 or START, the source (neither 0 nor START), bytes below 200,
      the command type (200 or more), parameter bytes other than END, and END. */
  predicate IsFrame(junk: seq<Byte>, starts: seq<Byte>, src: Byte, lows: seq<Byte>, typ: Byte, ps: seq<Byte>)
  {
    && StartTransmit !in junk
    && (forall b | b in starts :: b == 0 || b == StartTransmit)
    && src != 0 && src != StartTransmit
    && (forall b | b in lows :: b < CommandTypeSpace)
    && typ >= CommandTypeSpace
    && EndTransmit !in ps
  }

  function FrameBytes(junk: seq<Byte>, starts: seq<Byte>, src: Byte, lows: seq<Byte>, typ: Byte, ps: seq<Byte>): seq<Byte>
  {
    junk + [StartTransmit] + starts + [src] + lows + [typ] + ps + [EndTransmit]
  }

  /** The non-zero bytes of `ps`, in order: what a parameter loop stores. */
  function NonZero(ps: seq<Byte>): (nz: seq<Byte>)
    ensures |nz| <= |ps|
    ensures 0 !in nz
    ensures forall b: Byte | b != 0 :: multiset(nz)[b] == multiset(ps)[b]
  {
    if ps == [] then []
    else
      assert ps == [ps[0]] + ps[1..];
      (if ps[0] == 0 then [] else [ps[0]]) + NonZero(ps[1..])
  }

  /** The first byte is stored unless it is 0. */
  lemma NonZeroFront(ps: seq<Byte>)
    requires ps != []
    ensures ps[0] == 0 ==> NonZero(ps) == NonZero(ps[1..])
    ensures ps[0] != 0 ==> NonZero(ps) == [ps[0]] + NonZero(ps[1..])
  {
    if ps[0] == 0 {
      assert NonZero(ps) == [] + NonZero(ps[1..]);
    }
  }

  /** Storing parameters splits over concatenation, so NonZero keeps the
      non-zero bytes in the order they were sent. */
  lemma {:induction false} NonZeroAppend(xs: seq<Byte>, ys: seq<Byte>)
    ensures NonZero(xs + ys) == NonZero(xs) + NonZero(ys)
    decreases |xs|
  {
    if xs == [] {
      assert xs + ys == ys;
    } else {
      assert (xs + ys)[0] == xs[0] && (xs + ys)[1..] == xs[1..] + ys;
      NonZeroAppend(xs[1..], ys);
    }
  }

  /** `params` with `xs` written from index `count` on, as far as the buffer reaches. */
  function WriteFrom(params: seq<Byte>, count: nat, xs: seq<Byte>): (w: seq<Byte>)
    ensures |w| == |params|
    decreases |xs|
  {
    if xs == [] || count >= |params| then params
    else WriteFrom(params[count := xs[0]], count + 1, xs[1..])
  }

  function Min(a: nat, b: nat): nat
  {
    if a <= b then a else b
  }

  /** The state a frame from `src` of type `typ` with parameters `ps` leaves the
      recogniser in, when it started from `s`. */
  function AcceptedState(s: Scanner, src: Byte, typ: Byte, ps: seq<Byte>): Scanner
  {
    Scanner(Accepted, Registers(src, typ, WriteFrom(s.regs.params, s.count, NonZero(ps))),
            Min(|s.regs.params|, s.count + |NonZero(ps)|))
  }

  /* ---------------- Steps of the fold ---------------- */

  lemma FeedAllCons(s: Scanner, b: Byte, rest: seq<Byte>)
    ensures FeedAll(s, [b] + rest) == FeedAll(Feed(s, b), rest)
  {
    assert ([b] + rest)[1..] == rest;
  }

  /** Bytes that leave a stage as it is can be skipped. */
  lemma {:induction false} FeedAllSkips(s: Scanner, bs: seq<Byte>)
    requires forall b | b in bs :: Feed(s, b) == s
    ensures FeedAll(s, bs) == s
    decreases |bs|
  {
    if bs != [] {
      assert bs[0] in bs;
      FeedAllSkips(s, bs[1..]);
    }
  }

  /** In the parameter stage, bytes other than END are stored in order; zeros are skipped. */
  lemma {:induction false} StoreParams(s: Scanner, ps: seq<Byte>)
    requires s.stage == InParams && s.count <= |s.regs.params|
    requires EndTransmit !in ps
    ensures FeedAll(s, ps) == s.(regs := s.regs.(params := WriteFrom(s.regs.params, s.count, NonZero(ps))),
                                 count := Min(|s.regs.params|, s.count + |NonZero(ps)|))
    decreases |ps|
  {
    if ps == [] {
      assert s.count + 0 == s.count;
    } else {
      assert ps[0] in ps;
      StoreParams(Feed(s, ps[0]), ps[1..]);
      NonZeroFront(ps);
      if ps[0] == 0 {
        assert Feed(s, ps[0]) == s;
      } else {
        assert NonZero(ps)[1..] == NonZero(ps[1..]);
      }
    }
  }

  /** The header of a frame, up to and including its type, takes the recogniser
      to the parameter stage with the source and type stored. */
  lemma {:induction false} HeaderRead(s: Scanner, junk: seq<Byte>, starts: seq<Byte>, src: Byte, lows: seq<Byte>, typ: Byte, rest: seq<Byte>)
    requires s.stage == AwaitStart && IsFrame(junk, starts, src, lows, typ, [])
    ensures FeedAll(s, junk + ([StartTransmit] + (starts + ([src] + (lows + ([typ] + rest))))))
         == FeedAll(Scanner(InParams, s.regs.(source := src, ctype := typ), s.count), rest)
  {
    var s1 := s.(stage := AwaitSource);
    var s2 := s1.(stage := AwaitType, regs := s1.regs.(source := src));
    FeedAllAppend(s, junk, [StartTransmit] + (starts + ([src] + (lows + ([typ] + rest)))));
    FeedAllSkips(s, junk);
    FeedAllCons(s, StartTransmit, starts + ([src] + (lows + ([typ] + rest))));
    FeedAllAppend(s1, starts, [src] + (lows + ([typ] + rest)));
    FeedAllSkips(s1, starts);
    FeedAllCons(s1, src, lows + ([typ] + rest));
    FeedAllAppend(s2, lows, [typ] + rest);
    FeedAllSkips(s2, lows);
    FeedAllCons(s2, typ, rest);
  }

  /** Every frame is accepted by the fold, in exactly the state AcceptedState describes. */
  lemma {:induction false} FrameAccepted(s: Scanner, junk: seq<Byte>, starts: seq<Byte>, src: Byte, lows: seq<Byte>, typ: Byte, ps: seq<Byte>)
    requires s.stage == AwaitStart && s.count <= |s.regs.params|
    requires IsFrame(junk, starts, src, lows, typ, ps)
    ensures FeedAll(s, FrameBytes(junk, starts, src, lows, typ, ps)) == AcceptedState(s, src, typ, ps)
  {
    var s3 := Scanner(InParams, s.regs.(source := src, ctype := typ), s.count);
    assert FrameBytes(junk, starts, src, lows, typ, ps)
        == junk + ([StartTransmit] + (starts + ([src] + (lows + ([typ] + (ps + [EndTransmit]))))));
    HeaderRead(s, junk, starts, src, lows, typ, ps + [EndTransmit]);
    FeedAllAppend(s3, ps, [EndTransmit]);
    StoreParams(s3, ps);
    FeedAllCons(FeedAll(s3, ps), EndTransmit, []);
    assert [EndTransmit] + [] == [EndTransmit];
  }

  /* ---------------- Soundness: only a frame is accepted ---------------- */

  lemma {:induction false} LeaveAwaitStart(s: Scanner, bs: seq<Byte>) returns (junk: seq<Byte>, rest: seq<Byte>)
    requires s.stage == AwaitStart
    requires FeedAll(s, bs).stage != AwaitStart
    ensures bs == junk + [StartTransmit] + rest && StartTransmit !in junk
    ensures FeedAll(s, bs) == FeedAll(s.(stage := AwaitSource), rest)
    decreases |bs|
  {
    if bs[0] == StartTransmit {
      junk, rest := [], bs[1..];
    } else {
      var junk', rest' := LeaveAwaitStart(Feed(s, bs[0]), bs[1..]);
      junk, rest := [bs[0]] + junk', rest';
    }
  }

  lemma {:induction false} LeaveAwaitSource(s: Scanner, bs: seq<Byte>) returns (starts: seq<Byte>, src: Byte, rest: seq<Byte>)
    requires s.stage == AwaitSource
    requires FeedAll(s, bs).stage != AwaitSource
    ensures bs == starts + [src] + rest
    ensures (forall b | b in starts :: b == 0 || b == StartTransmit) && src != 0 && src != StartTransmit
    ensures FeedAll(s, bs) == FeedAll(s.(stage := AwaitType, regs := s.regs.(source := src)), rest)
    decreases |bs|
  {
    if bs[0] != 0 && bs[0] != StartTransmit {
      starts, src, rest := [], bs[0], bs[1..];
    } else {
      var starts', src', rest' := LeaveAwaitSource(Feed(s, bs[0]), bs[1..]);
      starts, src, rest := [bs[0]] + starts', src', rest';
    }
  }

  lemma {:induction false} LeaveAwaitType(s: Scanner, bs: seq<Byte>) returns (lows: seq<Byte>, typ: Byte, rest: seq<Byte>)
    requires s.stage == AwaitType
    requires FeedAll(s, bs).stage != AwaitType
    ensures bs == lows + [typ] + rest
    ensures (forall b | b in lows :: b < CommandTypeSpace) && typ >= CommandTypeSpace
    ensures FeedAll(s, bs) == FeedAll(s.(stage := InParams, regs := s.regs.(ctype := typ)), rest)
    decreases |bs|
  {
    if bs[0] >= CommandTypeSpace {
      lows, typ, rest := [], bs[0], bs[1..];
    } else {
      var lows', typ', rest' := LeaveAwaitType(Feed(s, bs[0]), bs[1..]);
      lows, typ, rest := [bs[0]] + lows', typ', rest';
    }
  }

  lemma {:induction false} LeaveInParams(s: Scanner, bs: seq<Byte>) returns (ps: seq<Byte>, tail: seq<Byte>)
    requires s.stage == InParams && s.count <= |s.regs.params|
    requires FeedAll(s, bs).stage == Accepted
    ensures bs == ps + [EndTransmit] + tail && EndTransmit !in ps
    ensures FeedAll(s, bs) == FeedAll(s, ps).(stage := Accepted)
    decreases |bs|
  {
    if bs[0] == EndTransmit {
      ps, tail := [], bs[1..];
      AcceptedStays(s.(stage := Accepted), tail);
    } else {
      var ps', tail' := LeaveInParams(Feed(s, bs[0]), bs[1..]);
      ps, tail := [bs[0]] + ps', tail';
      FeedAllCons(s, bs[0], ps');
    }
  }

  /** Only a frame is accepted: if the fold, started at AwaitStart, first
      accepts at the last byte of `bs`, then `bs` is a frame and the recogniser
      holds its source, its type and its non-zero parameters. */
  lemma {:induction false} AcceptedFrame(s: Scanner, bs: seq<Byte>)
    returns (junk: seq<Byte>, starts: seq<Byte>, src: Byte, lows: seq<Byte>, typ: Byte, ps: seq<Byte>)
    requires s.stage == AwaitStart && s.count <= |s.regs.params|
    requires FeedAll(s, bs).stage == Accepted
    requires |bs| > 0 && FeedAll(s, bs[..|bs| - 1]).stage != Accepted
    ensures bs == FrameBytes(junk, starts, src, lows, typ, ps)
    ensures IsFrame(junk, starts, src, lows, typ, ps)
    ensures FeedAll(s, bs) == AcceptedState(s, src, typ, ps)
  {
    var tail;
    junk, starts, src, lows, typ, ps, tail := FrameThenRest(s, bs);
    var f := FrameBytes(junk, starts, src, lows, typ, ps);
    if tail != [] {
      // The frame was complete before the last byte.
      assert bs[..|bs| - 1] == f + tail[..|tail| - 1];
      AcceptedBeforeTail(s, junk, starts, src, lows, typ, ps, tail);
      assert false;
    }
  }

  /** Input the recogniser accepts starts with a frame, and the frame's END is where it accepts. */
  lemma {:induction false} FrameThenRest(s: Scanner, bs: seq<Byte>)
    returns (junk: seq<Byte>, starts: seq<Byte>, src: Byte, lows: seq<Byte>, typ: Byte, ps: seq<Byte>, tail: seq<Byte>)
    requires s.stage == AwaitStart && s.count <= |s.regs.params|
    requires FeedAll(s, bs).stage == Accepted
    ensures bs == FrameBytes(junk, starts, src, lows, typ, ps) + tail
    ensures IsFrame(junk, starts, src, lows, typ, ps)
    ensures FeedAll(s, bs) == AcceptedState(s, src, typ, ps)
  {
    var rest;
    junk, starts, src, lows, typ, rest := HeaderThenRest(s, bs);
    var s3 := Scanner(InParams, s.regs.(source := src, ctype := typ), s.count);
    ps, tail := LeaveInParams(s3, rest);
    StoreParams(s3, ps);
  }

  /** Input that takes the recogniser past AWAIT_START, AWAIT_SOURCE and AWAIT_TYPE starts with a frame header. */
  lemma {:induction false} HeaderThenRest(s: Scanner, bs: seq<Byte>)
    returns (junk: seq<Byte>, starts: seq<Byte>, src: Byte, lows: seq<Byte>, typ: Byte, rest: seq<Byte>)
    requires s.stage == AwaitStart
    requires FeedAll(s, bs).stage == Accepted
    ensures bs == junk + [StartTransmit] + starts + [src] + lows + [typ] + rest
    ensures IsFrame(junk, starts, src, lows, typ, [])
    ensures FeedAll(s, bs) == FeedAll(Scanner(InParams, s.regs.(source := src, ctype := typ), s.count), rest)
  {
    var rest1, rest2;
    junk, rest1 := LeaveAwaitStart(s, bs);
    var s1 := s.(stage := AwaitSource);
    starts, src, rest2 := LeaveAwaitSource(s1, rest1);
    var s2 := s1.(stage := AwaitType, regs := s1.regs.(source := src));
    lows, typ, rest := LeaveAwaitType(s2, rest2);
  }

  /** Once a frame is read, whatever follows leaves the recogniser accepted. */
  lemma AcceptedBeforeTail(s: Scanner, junk: seq<Byte>, starts: seq<Byte>, src: Byte, lows: seq<Byte>, typ: Byte, ps: seq<Byte>,
                           tail: seq<Byte>)
    requires s.stage == AwaitStart && s.count <= |s.regs.params|
    requires IsFrame(junk, starts, src, lows, typ, ps)
    requires tail != []
    ensures FeedAll(s, FrameBytes(junk, starts, src, lows, typ, ps) + tail[..|tail| - 1]).stage == Accepted
  {
    var f := FrameBytes(junk, starts, src, lows, typ, ps);
    FrameAccepted(s, junk, starts, src, lows, typ, ps);
    FeedAllAppend(s, f, tail[..|tail| - 1]);
    AcceptedStays(FeedAll(s, f), tail[..|tail| - 1]);
  }


  /** Only a frame is accepted, for the polling loop itself: when
      `validTransmission` returns 1, the bytes it has read since it was called
      form one frame, ending with the END just read, and the registers hold
      that frame's source, type and non-zero parameters. */
  lemma {:induction false} ReceiveAcceptsOnlyFrames(regs: Registers, rx: seq<Poll>, t: int, tuned: bool)
    returns (junk: seq<Byte>, starts: seq<Byte>, src: Byte, lows: seq<Byte>, typ: Byte, ps: seq<Byte>)
    requires Recognise(regs, rx, t, tuned).s.stage == Accepted
    ensures var r := Recognise(regs, rx, t, tuned);
      var n := |rx| - |r.rest|;
      && rx == rx[..n] + r.rest
      && Heard(rx[..n], tuned) == FrameBytes(junk, starts, src, lows, typ, ps)
      && IsFrame(junk, starts, src, lows, typ, ps)
      && r.s == AcceptedState(Scanner(AwaitStart, regs, 0), src, typ, ps)
  {
    var s := Scanner(AwaitStart, regs, 0);
    var r := Receive(s, rx, t, tuned);
    ReceiveHears(s, rx, t, tuned);
    ReceiveCompletes(s, rx, t, tuned);
    var n := |rx| - |r.rest|;
    var heard := Heard(rx[..n], tuned);
    assert rx == rx[..n] + r.rest;
    assert heard[..|heard| - 1] == Heard(rx[..n - 1], tuned);
    junk, starts, src, lows, typ, ps := AcceptedFrame(s, heard);
  }

  /* ---------------- Completeness: every frame is accepted ---------------- */

  lemma QuietFront(bs: seq<Byte>, more: seq<Poll>)
    requires bs != []
    ensures (Quiet(bs) + more)[0] == Poll(bs[0], false)
    ensures (Quiet(bs) + more)[1..] == Quiet(bs[1..]) + more
  {
  }

  lemma QuietAppend(xs: seq<Byte>, ys: seq<Byte>)
    ensures Quiet(xs + ys) == Quiet(xs) + Quiet(ys)
  {
  }

  /** Reading bytes that leave the recogniser's stage as it is costs no time and changes nothing. */
  lemma {:induction false} SkipQuiet(s: Scanner, bs: seq<Byte>, more: seq<Poll>, t: int)
    requires s.stage != Accepted && t < RxTimeoutDuration
    requires forall b | b in bs :: Feed(s, b) == s
    ensures Receive(s, Quiet(bs) + more, t, true) == Receive(s, more, t, true)
    decreases |bs|
  {
    if bs != [] {
      QuietFront(bs, more);
      assert bs[0] in bs;
      SkipQuiet(s, bs[1..], more, t);
    } else {
      assert Quiet(bs) + more == more;
    }
  }

  /** Reading one byte that advances the recogniser. */
  lemma {:induction false} StepQuiet(s: Scanner, b: Byte, more: seq<Poll>, t: int)
    requires s.stage != Accepted && t < RxTimeoutDuration
    ensures Receive(s, Quiet([b]) + more, t, true) == Receive(Feed(s, b), more, t, true)
  {
    QuietFront([b], more);
  }

  /** A parameter run with its END, read without a tick, completes the frame. */
  lemma {:induction false} ParamsQuiet(s: Scanner, ps: seq<Byte>, more: seq<Poll>, t: int)
    requires s.stage == InParams && s.count <= |s.regs.params| && t < RxTimeoutDuration
    requires EndTransmit !in ps
    ensures Receive(s, Quiet(ps + [EndTransmit]) + more, t, true)
         == Received(FeedAll(s, ps).(stage := Accepted), more, t)
    decreases |ps|
  {
    QuietFront(ps + [EndTransmit], more);
    if ps == [] {
      assert ps + [EndTransmit] == [EndTransmit];
      assert Quiet([EndTransmit])[1..] == [];
    } else {
      assert (ps + [EndTransmit])[1..] == ps[1..] + [EndTransmit];
      assert ps[0] in ps;
      ParamsQuiet(Feed(s, ps[0]), ps[1..], more, t);
    }
  }

  /** Every frame is accepted: a frame read before the timer runs out, with no
      tick in between, is taken in exactly, the unread input is left over, and
      the registers hold its source, type and non-zero parameters. */
  lemma {:induction false} AcceptsFrame(regs: Registers, junk: seq<Byte>, starts: seq<Byte>, src: Byte, lows: seq<Byte>,
                                        typ: Byte, ps: seq<Byte>, more: seq<Poll>, t: int)
    requires t < RxTimeoutDuration
    requires IsFrame(junk, starts, src, lows, typ, ps)
    ensures Recognise(regs, Quiet(FrameBytes(junk, starts, src, lows, typ, ps)) + more, t, true)
         == Received(AcceptedState(Scanner(AwaitStart, regs, 0), src, typ, ps), more, t)
  {
    var s0 := Scanner(AwaitStart, regs, 0);
    var s1 := s0.(stage := AwaitSource);
    var s2 := s1.(stage := AwaitType, regs := s1.regs.(source := src));
    var s3 := s2.(stage := InParams, regs := s2.regs.(ctype := typ));
    var tail3 := Quiet(ps + [EndTransmit]) + more;
    var tail2 := Quiet(lows) + (Quiet([typ]) + tail3);
    var tail1 := Quiet(starts) + (Quiet([src]) + tail2);
    var all := Quiet(junk) + (Quiet([StartTransmit]) + tail1);
    assert FrameBytes(junk, starts, src, lows, typ, ps)
        == junk + ([StartTransmit] + (starts + ([src] + (lows + ([typ] + (ps + [EndTransmit]))))));
    QuietAppend(junk, [StartTransmit] + (starts + ([src] + (lows + ([typ] + (ps + [EndTransmit]))))));
    QuietAppend([StartTransmit], starts + ([src] + (lows + ([typ] + (ps + [EndTransmit])))));
    QuietAppend(starts, [src] + (lows + ([typ] + (ps + [EndTransmit]))));
    QuietAppend([src], lows + ([typ] + (ps + [EndTransmit])));
    QuietAppend(lows, [typ] + (ps + [EndTransmit]));
    QuietAppend([typ], ps + [EndTransmit]);
    assert Quiet(FrameBytes(junk, starts, src, lows, typ, ps)) + more == all;
    SkipQuiet(s0, junk, Quiet([StartTransmit]) + tail1, t);
    StepQuiet(s0, StartTransmit, tail1, t);
    SkipQuiet(s1, starts, Quiet([src]) + tail2, t);
    StepQuiet(s1, src, tail2, t);
    SkipQuiet(s2, lows, Quiet([typ]) + tail3, t);
    StepQuiet(s2, typ, tail3, t);
    ParamsQuiet(s3, ps, more, t);
    StoreParams(s3, ps);
  }

  /** The timer ticks a run of reads lets pass. */
  function Ticks(polls: seq<Poll>): (n: nat)
    ensures n <= |polls|
    decreases |polls|
  {
    if polls == [] then 0 else (if polls[0].tick then 1 else 0) + Ticks(polls[1..])
  }

  /** Ticks between the reads change nothing as long as the timer stays below
      RxTimeoutDuration before the last read: a run that, heard without ticks,
      is accepted exactly at its last byte is accepted the same way with them,
      and the timer has moved on by the ticks. */
  lemma {:induction false} Retimed(s: Scanner, polls: seq<Poll>, more: seq<Poll>, t0: int, t: int)
    requires t0 < RxTimeoutDuration
    requires Receive(s, Quiet(Heard(polls, true)) + more, t0, true).rest == more
    requires Receive(s, Quiet(Heard(polls, true)) + more, t0, true).s.stage == Accepted
    requires polls != [] ==> t + Ticks(polls[..|polls| - 1]) < RxTimeoutDuration
    ensures Receive(s, polls + more, t, true)
         == Received(Receive(s, Quiet(Heard(polls, true)) + more, t0, true).s, more, t + Ticks(polls))
    decreases |polls|
  {
    var q := Quiet(Heard(polls, true)) + more;
    if polls == [] {
      assert q == more && polls + more == more;
      if s.stage != Accepted {
        if more == [] {
          SilentReceive(s, t0, true);
        }
        assert false;
      }
    } else {
      var t' := if polls[0].tick then t + 1 else t;
      assert |q| > |more|;
      RetimedFront(s, polls, more, t0, t);
      Retimed(Feed(s, polls[0].data), polls[1..], more, t0, t');
    }
  }

  /** One read of `Retimed`: with and without its tick, the first read feeds the same byte. */
  lemma RetimedFront(s: Scanner, polls: seq<Poll>, more: seq<Poll>, t0: int, t: int)
    requires s.stage != Accepted && polls != [] && t0 < RxTimeoutDuration
    requires t + Ticks(polls[..|polls| - 1]) < RxTimeoutDuration
    ensures var t' := if polls[0].tick then t + 1 else t;
      && Receive(s, polls + more, t, true) == Receive(Feed(s, polls[0].data), polls[1..] + more, t', true)
      && Receive(s, Quiet(Heard(polls, true)) + more, t0, true)
         == Receive(Feed(s, polls[0].data), Quiet(Heard(polls[1..], true)) + more, t0, true)
      && t + Ticks(polls) == t' + Ticks(polls[1..])
      && (polls[1..] != [] ==> t' + Ticks(polls[1..][..|polls[1..]| - 1]) == t + Ticks(polls[..|polls| - 1]))
  {
    var tail := polls[1..];
    assert Heard(polls, true) == [polls[0].data] + Heard(tail, true);
    QuietFront(Heard(polls, true), more);
    assert (polls + more)[0] == polls[0] && (polls + more)[1..] == tail + more;
    if tail != [] {
      assert polls[..|polls| - 1][0] == polls[0];
      assert polls[..|polls| - 1][1..] == tail[..|tail| - 1];
    }
  }

  /** Every frame is accepted even with timer ticks in between: as long as
      the timer is still below RxTimeoutDuration before the frame's last
      read, `validTransmission` takes it in exactly, leaves the rest of the
      input unread, and has let the frame's ticks pass. */
  lemma {:induction false} AcceptsTickedFrame(regs: Registers, junk: seq<Byte>, starts: seq<Byte>, src: Byte, lows: seq<Byte>,
                                              typ: Byte, ps: seq<Byte>, polls: seq<Poll>, more: seq<Poll>, t: int)
    requires IsFrame(junk, starts, src, lows, typ, ps)
    requires Heard(polls, true) == FrameBytes(junk, starts, src, lows, typ, ps)
    requires |polls| > 0 && t + Ticks(polls[..|polls| - 1]) < RxTimeoutDuration
    ensures Recognise(regs, polls + more, t, true)
         == Received(AcceptedState(Scanner(AwaitStart, regs, 0), src, typ, ps), more, t + Ticks(polls))
  {
    AcceptsFrame(regs, junk, starts, src, lows, typ, ps, more, 0);
    Retimed(Scanner(AwaitStart, regs, 0), polls, more, 0, t);
  }

  /* ---------------- The reply wait of pingModule and assignID ---------------- */

  datatype Reply = Reply(matched: bool, regs: Registers, rest: seq<Poll>, t: int)

  /** The listening loop of `pingModule` and `assignID`: call the recogniser
      again and again until it accepts a frame of type `cmd` whose source is
      `from`, or the timer runs out. (The destination test of the source always
      holds: COMMAND_DESTINATION is never written and stays PARENT_ID.) */
  function AwaitReply(cmd: Byte, from: int, regs: Registers, rx: seq<Poll>, t: int, tuned: bool): (r: Reply)
    ensures r.matched ==> r.regs.ctype == cmd && r.regs.source == from && |r.rest| < |rx|
    ensures !r.matched ==> r.t >= RxTimeoutDuration
    ensures |r.rest| <= |rx| && |r.regs.params| == |regs.params|
    decreases |rx|, RxTimeoutDuration - t
  {
    if t >= RxTimeoutDuration then Reply(false, regs, rx, t)
    else
      var r := Recognise(regs, rx, t, tuned);
      if r.s.stage == Accepted && r.s.regs.ctype == cmd && r.s.regs.source == from then
        Reply(true, r.s.regs, r.rest, r.t)
      else
        AwaitReply(cmd, from, r.s.regs, r.rest, r.t, tuned)
  }

  /** Nothing is heard on a silent bus: with no input left, the wait times out. */
  lemma {:induction false} SilentReceive(s: Scanner, t: int, tuned: bool)
    requires s.stage != Accepted
    ensures Receive(s, [], t, tuned).s == s
    decreases RxTimeoutDuration - t
  {
    if t < RxTimeoutDuration {
      SilentReceive(s, t + 1, tuned);
    }
  }

  lemma {:induction false} SilentReply(cmd: Byte, from: int, regs: Registers, t: int, tuned: bool)
    ensures !AwaitReply(cmd, from, regs, [], t, tuned).matched
    decreases RxTimeoutDuration - t
  {
    if t < RxTimeoutDuration {
      SilentReceive(Scanner(AwaitStart, regs, 0), t, tuned);
      var r := Recognise(regs, [], t, tuned);
      SilentReply(cmd, from, r.s.regs, r.t, tuned);
    }
  }

  /** With no port selected every read returns 0, which the recogniser ignores. */
  lemma {:induction false} UntunedReceive(s: Scanner, rx: seq<Poll>, t: int)
    requires s.stage != Accepted
    ensures Receive(s, rx, t, false).s == s
    decreases |rx|, RxTimeoutDuration - t
  {
    if t < RxTimeoutDuration {
      var p := NextPoll(rx, t, false);
      UntunedReceive(Feed(s, p.b), p.rest, p.t);
    }
  }

  /** A wait with no port selected never hears its reply. */
  lemma {:induction false} UntunedReply(cmd: Byte, from: int, regs: Registers, rx: seq<Poll>, t: int)
    ensures !AwaitReply(cmd, from, regs, rx, t, false).matched
    decreases |rx|, RxTimeoutDuration - t
  {
    if t < RxTimeoutDuration {
      UntunedReceive(Scanner(AwaitStart, regs, 0), rx, t);
      var r := Recognise(regs, rx, t, false);
      UntunedReply(cmd, from, r.s.regs, r.rest, r.t);
    }
  }

  /** Writing from index `count` on leaves the entries below `count` alone. */
  lemma {:induction false} WriteFromKeeps(params: seq<Byte>, count: nat, xs: seq<Byte>, i: nat)
    requires i < count && i < |params|
    ensures WriteFrom(params, count, xs)[i] == params[i]
    decreases |xs|
  {
    if xs != [] && count < |params| {
      WriteFromKeeps(params[count := xs[0]], count + 1, xs[1..], i);
    }
  }

  /** Entry `i` of PARAM, within the buffer and the written stretch, holds the byte written there. */
  lemma {:induction false} WriteFromReads(params: seq<Byte>, count: nat, xs: seq<Byte>, i: nat)
    requires count <= i < |params| && i < count + |xs|
    ensures WriteFrom(params, count, xs)[i] == xs[i - count]
    decreases |xs|
  {
    if i == count {
      WriteFromKeeps(params[count := xs[0]], count + 1, xs[1..], i);
    } else {
      WriteFromReads(params[count := xs[0]], count + 1, xs[1..], i);
    }
  }

  /** Parameters with no zero among them are all stored. */
  lemma {:induction false} NonZeroKeeps(ps: seq<Byte>)
    requires 0 !in ps
    ensures NonZero(ps) == ps
    decreases |ps|
  {
    if ps != [] {
      assert ps[0] in ps;
      assert forall b | b in ps[1..] :: b in ps;
      NonZeroKeeps(ps[1..]);
      assert [ps[0]] + ps[1..] == ps;
    }
  }

  /** A module's answer `START START m PARENT_ID cmd params END END`, heard
      without a tick, is matched by the wait for `cmd` from `m`; its non-zero
      parameters land in PARAM from index 0, and the closing END is left unread. */
  lemma {:induction false} ReplyMatched(cmd: Byte, m: Byte, regs: Registers, ps: seq<Byte>, more: seq<Poll>, t: int)
    requires t < RxTimeoutDuration
    requires m != 0 && m != StartTransmit && cmd >= CommandTypeSpace && EndTransmit !in ps
    ensures var r := AwaitReply(cmd, m, regs, Quiet(ControlFrame(m, ParentId, cmd, ps)) + more, t, true);
      && r.matched
      && r.regs == Registers(m, cmd, WriteFrom(regs.params, 0, NonZero(ps)))
      && r.rest == Quiet([EndTransmit]) + more
  {
    var body := FrameBytes([], [StartTransmit], m, [ParentId], cmd, ps);
    assert ControlFrame(m, ParentId, cmd, ps) == body + [EndTransmit];
    QuietAppend(body, [EndTransmit]);
    assert Quiet(ControlFrame(m, ParentId, cmd, ps)) + more == Quiet(body) + (Quiet([EndTransmit]) + more);
    AcceptsFrame(regs, [], [StartTransmit], m, [ParentId], cmd, ps, Quiet([EndTransmit]) + more, t);
  }

  /** A destination byte of 200 or more is taken as the command type: the
      recogniser does not keep the destination, and the real type becomes the
      first parameter. */
  lemma {:induction false} DestinationTakenAsType(src: Byte, dst: Byte, cmd: Byte, ps: seq<Byte>, regs: Registers, more: seq<Poll>, t: int)
    requires t < RxTimeoutDuration
    requires src != 0 && src != StartTransmit
    requires dst >= CommandTypeSpace && cmd != 0 && cmd != EndTransmit && EndTransmit !in ps
    ensures var r := Recognise(regs, Quiet(ControlFrame(src, dst, cmd, ps)) + more, t, true);
      && r.s.stage == Accepted
      && r.s.regs.ctype == dst
      && r.s.regs.params == WriteFrom(regs.params, 0, [cmd] + NonZero(ps))
  {
    var body := FrameBytes([], [StartTransmit], src, [], dst, [cmd] + ps);
    assert ControlFrame(src, dst, cmd, ps) == body + [EndTransmit];
    QuietAppend(body, [EndTransmit]);
    assert Quiet(ControlFrame(src, dst, cmd, ps)) + more == Quiet(body) + (Quiet([EndTransmit]) + more);
    assert NonZero([cmd] + ps) == [cmd] + NonZero(ps) by {
      assert ([cmd] + ps)[1..] == ps;
    }
    AcceptsFrame(regs, [], [StartTransmit], src, [], dst, [cmd] + ps, Quiet([EndTransmit]) + more, t);
  }
}
