/** Finding the port the newest module answers on: `childListen` polls the
    four receive ports in turn, and the first START it hears selects a port
    whose END then names CHILD. */
module Listening {
  import opened Wire
  import opened Recogniser

  /** CHILD before any child was heard. */
  const NoChild: char := '\0'

  /** The character CHILD holds for receive port `k`. */
  function PortChar(k: int): (c: char)
    requires 1 <= k <= 4
    ensures IsPort(c)
  {
    ('0' as int + k) as char
  }

  /** Whether CHILD names one of the four ports, so that `iReadChar` and
      `readChar` read a real port. */
  predicate IsPort(c: char)
  {
    '1' <= c <= '4'
  }

  datatype Listened = Listened(child: char, rest: seq<Poll>, t: int)

  /** The inner loop after a START on `port`: read that port until the timer
      runs out; every END heard sets CHILD to the port. */
  function Drain(port: char, child: char, rx: seq<Poll>, t: int): (r: Listened)
    ensures r.child == child || r.child == port
    ensures |r.rest| <= |rx| && t <= r.t && r.t >= RxTimeoutDuration
    decreases |rx|, RxTimeoutDuration - t
  {
    if t >= RxTimeoutDuration then Listened(child, rx, t)
    else
      var p := NextPoll(rx, t, true);
      Drain(port, if p.b == EndTransmit then port else child, p.rest, p.t)
  }

  /** One pass of the outer loop from port `k` on: read port `k`; on a START
      drain it, otherwise go on with the next port, up to port 4. */
  function Probe(k: int, child: char, rx: seq<Poll>, t: int): (r: Listened)
    requires 1 <= k <= 4
    ensures r.child == child || IsPort(r.child)
    ensures |r.rest| < |rx| || (rx == [] && r.rest == [] && r.t > t)
    ensures t <= r.t
    decreases 4 - k
  {
    var p := NextPoll(rx, t, true);
    if p.b == StartTransmit then Drain(PortChar(k), child, p.rest, p.t)
    else if k < 4 then Probe(k + 1, child, p.rest, p.t)
    else Listened(child, p.rest, p.t)
  }

  /** `childListen`: passes over the ports until the timer runs out. */
  function Listen(child: char, rx: seq<Poll>, t: int): (r: Listened)
    ensures |r.rest| <= |rx| && t <= r.t
    ensures r.t >= RxTimeoutDuration
    ensures t < RxTimeoutDuration && rx != [] ==> |r.rest| < |rx|
    decreases |rx|, RxTimeoutDuration - t
  {
    if t >= RxTimeoutDuration then Listened(child, rx, t)
    else
      var r := Probe(1, child, rx, t);
      Listen(r.child, r.rest, r.t)
  }

  /** CHILD is only ever set to a port: it keeps its value or becomes '1'..'4'. */
  lemma {:induction false} ListenSetsPort(child: char, rx: seq<Poll>, t: int)
    ensures var c := Listen(child, rx, t).child; c == child || IsPort(c)
    decreases |rx|, RxTimeoutDuration - t
  {
    if t < RxTimeoutDuration {
      var r := Probe(1, child, rx, t);
      ListenSetsPort(r.child, r.rest, r.t);
    }
  }

  /** On a silent bus nothing is heard and CHILD keeps its value, so the
      discovery loop says Hello again. */
  lemma {:induction false} SilentListen(child: char, t: int)
    ensures Listen(child, [], t).child == child
    decreases RxTimeoutDuration - t
  {
    if t < RxTimeoutDuration {
      SilentProbe(1, child, t);
      SilentListen(child, t + 4);
    }
  }

  lemma {:induction false} SilentProbe(k: int, child: char, t: int)
    requires 1 <= k <= 4
    ensures Probe(k, child, [], t) == Listened(child, [], t + 5 - k)
    decreases 4 - k
  {
    if k < 4 {
      SilentProbe(k + 1, child, t + 1);
    }
  }

  /** Once CHILD names the drained port, further ENDs keep it there. */
  lemma {:induction false} DrainKeeps(port: char, rx: seq<Poll>, t: int)
    ensures Drain(port, port, rx, t).child == port
    decreases |rx|, RxTimeoutDuration - t
  {
    if t < RxTimeoutDuration {
      var p := NextPoll(rx, t, true);
      DrainKeeps(port, p.rest, p.t);
    }
  }

  /** Quiet polls that return `n` zero bytes. */
  function Zeros(n: nat): (bs: seq<Byte>)
    ensures |bs| == n && forall b | b in bs :: b == 0
  {
    seq(n, _ => 0)
  }

  /** A pass that first hears START on port `j`, after silence on the ports
      before it, drains port `j`. */
  lemma {:induction false} ProbeFinds(k: int, j: int, child: char, more: seq<Poll>, t: int)
    requires 1 <= k <= j <= 4
    ensures Probe(k, child, Quiet(Zeros(j - k) + [StartTransmit]) + more, t)
         == Drain(PortChar(j), child, more, t)
    decreases j - k
  {
    var rx := Quiet(Zeros(j - k) + [StartTransmit]) + more;
    assert rx[0] == Poll((Zeros(j - k) + [StartTransmit])[0], false);
    if k < j {
      assert rx[1..] == Quiet(Zeros(j - (k + 1)) + [StartTransmit]) + more;
      ProbeFinds(k + 1, j, child, more, t);
    } else {
      assert rx[1..] == more;
    }
  }

  /** A new module answering on port `j` (silence on the lower-numbered ports,
      then START, then END, without a tick) is found: whatever follows,
      `childListen` leaves CHILD naming port `j`. */
  lemma ChildFound(j: int, child: char, more: seq<Poll>, t: int)
    requires 1 <= j <= 4 && t < RxTimeoutDuration
    ensures Listen(child, Quiet(Zeros(j - 1) + [StartTransmit, EndTransmit]) + more, t).child == PortChar(j)
  {
    var tail := Quiet([EndTransmit]) + more;
    var rx := Quiet(Zeros(j - 1) + [StartTransmit, EndTransmit]) + more;
    assert rx == Quiet(Zeros(j - 1) + [StartTransmit]) + tail;
    ProbeFinds(1, j, child, tail, t);
    assert tail[0] == Poll(EndTransmit, false) && tail[1..] == more;
    var d := Drain(PortChar(j), child, tail, t);
    DrainKeeps(PortChar(j), more, t);
  }
}
