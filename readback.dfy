/** Reading a servo's state back through the child port: after a READ
    instruction the root scans the servo's reply byte by byte, without the
    frame recogniser, for the servo id, the length byte and the data. */
module Readback {
  import opened Wire
  import opened Recogniser

  /** What a read command sends the host: one line, or nothing when no
      usable reply came before the timer ran out; and what is left of the input. */
  datatype Answer = Answer(line: string, rest: seq<Poll>, t: int)

  /** The host line for a present position reported as `lo`, `hi`. */
  function AngleLine(lo: Byte, hi: Byte): string
  {
    DecimalString(Word(lo, hi)) + "\n"
  }

  /** The scan of `r id a`: wait for the id byte, then for the length byte 4;
      then read the error byte and, when it is 0, the two position bytes.
      Every wait ends when the timer reaches RxTimeoutDuration. */
  function AngleScan(id: Byte, idHeard: bool, rx: seq<Poll>, t: int, tuned: bool): (a: Answer)
    ensures |a.rest| <= |rx|
    decreases |rx|, RxTimeoutDuration - t
  {
    if t >= RxTimeoutDuration then Answer([], rx, t)
    else
      var p := NextPoll(rx, t, tuned);
      if !idHeard then AngleScan(id, p.b == id, p.rest, p.t, tuned)
      else if p.b != 4 then AngleScan(id, true, p.rest, p.t, tuned)
      else
        var e := NextPoll(p.rest, p.t, tuned);
        if e.b != 0 then Answer([], e.rest, e.t)
        else
          var lo := NextPoll(e.rest, e.t, tuned);
          var hi := NextPoll(lo.rest, lo.t, tuned);
          Answer(AngleLine(lo.b, hi.b), hi.rest, hi.t)
  }

  datatype Phase = AwaitId | AwaitLength | AwaitValue

  /** The verdict of `r id p` on the first non-zero byte after the length
      byte: '0' when it is the checksum the running total predicts for a
      torque value of 0, '1' otherwise. */
  function PowerLine(total: int, b: Byte): (line: string)
    ensures line == "0\n" <==> total % 256 == 255 - b
    ensures line == "0\n" || line == "1\n"
  {
    if total % 256 == 255 - b then "0\n" else "1\n"
  }

  /** The scan of `r id p`: wait for the id byte (the running total starts at
      the id), then for the length byte 3 (added to the total), then for the
      first non-zero byte. */
  function PowerScan(id: Byte, phase: Phase, total: int, rx: seq<Poll>, t: int, tuned: bool): (a: Answer)
    ensures a.line == [] || a.line == "0\n" || a.line == "1\n"
    ensures |a.rest| <= |rx|
    decreases |rx|, RxTimeoutDuration - t
  {
    if t >= RxTimeoutDuration then Answer([], rx, t)
    else
      var p := NextPoll(rx, t, tuned);
      match phase
      case AwaitId =>
        if p.b == id then PowerScan(id, AwaitLength, id, p.rest, p.t, tuned)
        else PowerScan(id, AwaitId, total, p.rest, p.t, tuned)
      case AwaitLength =>
        if p.b == 3 then PowerScan(id, AwaitValue, total + 3, p.rest, p.t, tuned)
        else PowerScan(id, AwaitLength, total, p.rest, p.t, tuned)
      case AwaitValue =>
        if p.b != 0 then Answer(PowerLine(total, p.b), p.rest, p.t)
        else PowerScan(id, AwaitValue, total, p.rest, p.t, tuned)
  }

  /* ---------------- Read-back of well-formed replies ---------------- */

  /** Reading a poll that returns `b` without a tick. */
  lemma QuietHead(b: Byte, q: seq<Poll>, t: int)
    ensures NextPoll([Poll(b, false)] + q, t, true) == Polled(b, q, t)
  {
    assert ([Poll(b, false)] + q)[1..] == q;
  }

  /** A servo answering `r id a` with error 0 and position bytes `lo`, `hi`
      (its status packet heard without a tick) has its position reported to
      the host as the decimal value `hi * 256 + lo`, whatever its id. */
  lemma AngleReadBack(id: Byte, lo: Byte, hi: Byte, more: seq<Poll>, t: int)
    requires t < RxTimeoutDuration
    ensures AngleScan(id, false, Quiet(ServoReply(id, 0, [lo, hi])) + more, t, true).line == AngleLine(lo, hi)
  {
    var cs := Checksum([id, 4, 0, lo, hi]);
    var reply := ServoReply(id, 0, [lo, hi]);
    assert reply == [255, 255, id, 4, 0, lo, hi, cs] by {
      assert [id, 4, 0] + [lo, hi] == [id, 4, 0, lo, hi];
    }
    var q7 := [Poll(cs, false)] + more;
    var q6 := [Poll(hi, false)] + q7;
    var q5 := [Poll(lo, false)] + q6;
    var q4 := [Poll(0, false)] + q5;
    var q3 := [Poll(4, false)] + q4;
    var q2 := [Poll(id, false)] + q3;
    var q1 := [Poll(255, false)] + q2;
    var q0 := [Poll(255, false)] + q1;
    assert Quiet(reply) + more == q0;
    QuietHead(255, q1, t);
    QuietHead(255, q2, t);
    QuietHead(id, q3, t);
    QuietHead(4, q4, t);
    QuietHead(0, q5, t);
    QuietHead(lo, q6, t);
    QuietHead(hi, q7, t);
    assert AngleScan(id, true, q3, t, true).line == AngleLine(lo, hi);
    if id == 255 {
      assert AngleScan(id, true, q1, t, true) == AngleScan(id, true, q2, t, true);
      assert AngleScan(id, true, q2, t, true) == AngleScan(id, true, q3, t, true);
    } else {
      assert AngleScan(id, false, q1, t, true) == AngleScan(id, false, q2, t, true);
      assert AngleScan(id, false, q2, t, true) == AngleScan(id, true, q3, t, true);
    }
  }

  /** A servo answering `r id a` with a non-zero error byte gets no answer:
      the scan stops at the error byte and sends the host nothing. */
  lemma AngleErrorUnanswered(id: Byte, e: Byte, lo: Byte, hi: Byte, more: seq<Poll>, t: int)
    requires t < RxTimeoutDuration && e != 0
    ensures AngleScan(id, false, Quiet(ServoReply(id, e, [lo, hi])) + more, t, true).line == []
  {
    var cs := Checksum([id, 4, e, lo, hi]);
    var reply := ServoReply(id, e, [lo, hi]);
    assert reply == [255, 255, id, 4, e, lo, hi, cs] by {
      assert [id, 4, e] + [lo, hi] == [id, 4, e, lo, hi];
    }
    var q5 := [Poll(lo, false)] + ([Poll(hi, false)] + ([Poll(cs, false)] + more));
    var q4 := [Poll(e, false)] + q5;
    var q3 := [Poll(4, false)] + q4;
    var q2 := [Poll(id, false)] + q3;
    var q1 := [Poll(255, false)] + q2;
    var q0 := [Poll(255, false)] + q1;
    assert Quiet(reply) + more == q0;
    QuietHead(255, q1, t);
    QuietHead(255, q2, t);
    QuietHead(id, q3, t);
    QuietHead(4, q4, t);
    QuietHead(e, q5, t);
    assert AngleScan(id, true, q3, t, true).line == [];
    if id == 255 {
      assert AngleScan(id, true, q1, t, true) == AngleScan(id, true, q2, t, true);
      assert AngleScan(id, true, q2, t, true) == AngleScan(id, true, q3, t, true);
    } else {
      assert AngleScan(id, false, q1, t, true) == AngleScan(id, false, q2, t, true);
      assert AngleScan(id, false, q2, t, true) == AngleScan(id, true, q3, t, true);
    }
  }

  /** On a silent bus every read returns 0, which is never the length byte
      4, so `r id a` sends the host nothing. */
  lemma {:induction false} SilentAngle(id: Byte, idHeard: bool, t: int, tuned: bool)
    ensures AngleScan(id, idHeard, [], t, tuned).line == []
    decreases RxTimeoutDuration - t
  {
    if t < RxTimeoutDuration {
      SilentAngle(id, idHeard || id == 0, t + 1, tuned);
    }
  }

  /** The value part of a power reply: error byte 0, the torque value and the
      checksum; the verdict is right unless the first non-zero byte fools it. */
  lemma PowerValue(id: Byte, total: int, torque: Byte, more: seq<Poll>, t: int)
    requires t < RxTimeoutDuration && torque <= 1
    requires total % 256 != 255 - torque
    ensures var cs: Byte := 255 - (total + torque) % 256;
      PowerScan(id, AwaitValue, total, [Poll(0, false)] + ([Poll(torque, false)] + ([Poll(cs, false)] + more)), t, true).line
      == if torque == 0 then "0\n" else "1\n"
  {
    var cs: Byte := 255 - (total + torque) % 256;
    var q6 := [Poll(cs, false)] + more;
    var q5 := [Poll(torque, false)] + q6;
    QuietHead(0, q5, t);
    QuietHead(torque, q6, t);
    QuietHead(cs, more, t);
    if torque == 0 {
      assert PowerScan(id, AwaitValue, total, q5, t, true) == PowerScan(id, AwaitValue, total, q6, t, true);
    }
  }

  /** The polls of a torque reply `0xFF 0xFF id 3 0 torque checksum` heard without a tick. */
  lemma PowerReplyPolls(id: Byte, torque: Byte, more: seq<Poll>)
    ensures var cs := Checksum([id, 3, 0, torque]);
      && cs == 255 - (id + 3 + torque) % 256
      && Quiet(ServoReply(id, 0, [torque])) + more
         == [Poll(255, false)] + ([Poll(255, false)] + ([Poll(id, false)] + ([Poll(3, false)]
            + ([Poll(0, false)] + ([Poll(torque, false)] + ([Poll(cs, false)] + more))))))
  {
    var cs := Checksum([id, 3, 0, torque]);
    var reply := ServoReply(id, 0, [torque]);
    assert reply == [255, 255, id, 3, 0, torque, cs] by {
      assert [id, 3, 0] + [torque] == [id, 3, 0, torque];
    }
    SumOfFour(id, 3, 0, torque);
    assert Quiet(reply) + more
        == [Poll(255, false)] + ([Poll(255, false)] + ([Poll(id, false)] + ([Poll(3, false)]
           + ([Poll(0, false)] + ([Poll(torque, false)] + ([Poll(cs, false)] + more))))));
  }

  /** A servo answering `r id p` with error 0 and torque value 0 or 1 is
      reported as '0' exactly when its torque is off, for every id except 251
      and 252 (see PowerMisread). */
  lemma PowerReadBack(id: Byte, torque: Byte, more: seq<Poll>, t: int)
    requires t < RxTimeoutDuration && torque <= 1
    requires id != 251 && id != 252
    ensures PowerScan(id, AwaitId, 0, Quiet(ServoReply(id, 0, [torque])) + more, t, true).line
         == if torque == 0 then "0\n" else "1\n"
  {
    var cs := Checksum([id, 3, 0, torque]);
    PowerReplyPolls(id, torque, more);
    var q4 := [Poll(0, false)] + ([Poll(torque, false)] + ([Poll(cs, false)] + more));
    var q3 := [Poll(3, false)] + q4;
    var q2 := [Poll(id, false)] + q3;
    var q1 := [Poll(255, false)] + q2;
    QuietHead(255, q1, t);
    QuietHead(255, q2, t);
    QuietHead(id, q3, t);
    QuietHead(3, q4, t);
    PowerValue(id, id + 3, torque, more, t);
    assert PowerScan(id, AwaitLength, id, q3, t, true) == PowerScan(id, AwaitValue, id + 3, q4, t, true);
    if id == 255 {
      assert PowerScan(id, AwaitLength, id, q1, t, true) == PowerScan(id, AwaitLength, id, q2, t, true);
      assert PowerScan(id, AwaitLength, id, q2, t, true) == PowerScan(id, AwaitLength, id, q3, t, true);
    } else {
      assert PowerScan(id, AwaitId, 0, q1, t, true) == PowerScan(id, AwaitId, 0, q2, t, true);
      assert PowerScan(id, AwaitId, 0, q2, t, true) == PowerScan(id, AwaitLength, id, q3, t, true);
    }
  }

  /** The checksum heuristic misreads servo 251: with its torque on, the
      value byte 1 is the first non-zero byte and happens to equal the
      checksum the heuristic expects, so the host is told '0'. */
  lemma PowerMisread(more: seq<Poll>, t: int)
    requires t < RxTimeoutDuration
    ensures PowerScan(251, AwaitId, 0, Quiet(ServoReply(251, 0, [1])) + more, t, true).line == "0\n"
  {
    var cs := Checksum([251, 3, 0, 1]);
    var reply := ServoReply(251, 0, [1]);
    assert reply == [255, 255, 251, 3, 0, 1, cs] by {
      assert [251, 3, 0] + [1] == [251, 3, 0, 1];
    }
    var q6 := [Poll(cs, false)] + more;
    var q5 := [Poll(1, false)] + q6;
    var q4 := [Poll(0, false)] + q5;
    var q3 := [Poll(3, false)] + q4;
    var q2 := [Poll(251, false)] + q3;
    var q1 := [Poll(255, false)] + q2;
    var q0 := [Poll(255, false)] + q1;
    assert Quiet(reply) + more == q0;
    QuietHead(255, q1, t);
    QuietHead(255, q2, t);
    QuietHead(251, q3, t);
    QuietHead(3, q4, t);
    QuietHead(0, q5, t);
    QuietHead(1, q6, t);
    assert PowerScan(251, AwaitValue, 254, q4, t, true).line == "0\n";
    assert PowerScan(251, AwaitId, 0, q0, t, true) == PowerScan(251, AwaitId, 0, q1, t, true);
    assert PowerScan(251, AwaitId, 0, q1, t, true) == PowerScan(251, AwaitId, 0, q2, t, true);
    assert PowerScan(251, AwaitId, 0, q2, t, true) == PowerScan(251, AwaitLength, 251, q3, t, true);
    assert PowerScan(251, AwaitLength, 251, q3, t, true) == PowerScan(251, AwaitValue, 254, q4, t, true);
  }

  /** The checksum heuristic cannot answer for servo 252 with its torque
      off: the value byte and the checksum are both 0, so the scan skips
      them and goes on reading whatever follows the reply. */
  lemma PowerSkipped(more: seq<Poll>, t: int)
    requires t < RxTimeoutDuration
    ensures PowerScan(252, AwaitId, 0, Quiet(ServoReply(252, 0, [0])) + more, t, true)
         == PowerScan(252, AwaitValue, 255, more, t, true)
  {
    var cs := Checksum([252, 3, 0, 0]);
    var reply := ServoReply(252, 0, [0]);
    SumOfFour(252, 3, 0, 0);
    assert reply == [255, 255, 252, 3, 0, 0, 0] by {
      assert [252, 3, 0] + [0] == [252, 3, 0, 0];
    }
    var q6 := [Poll(0, false)] + more;
    var q5 := [Poll(0, false)] + q6;
    var q4 := [Poll(0, false)] + q5;
    var q3 := [Poll(3, false)] + q4;
    var q2 := [Poll(252, false)] + q3;
    var q1 := [Poll(255, false)] + q2;
    var q0 := [Poll(255, false)] + q1;
    assert Quiet(reply) + more == q0;
    QuietHead(255, q1, t);
    QuietHead(255, q2, t);
    QuietHead(252, q3, t);
    QuietHead(3, q4, t);
    QuietHead(0, q5, t);
    QuietHead(0, q6, t);
    QuietHead(0, more, t);
    assert PowerScan(252, AwaitId, 0, q0, t, true) == PowerScan(252, AwaitId, 0, q1, t, true);
    assert PowerScan(252, AwaitId, 0, q1, t, true) == PowerScan(252, AwaitId, 0, q2, t, true);
    assert PowerScan(252, AwaitId, 0, q2, t, true) == PowerScan(252, AwaitLength, 252, q3, t, true);
    assert PowerScan(252, AwaitLength, 252, q3, t, true) == PowerScan(252, AwaitValue, 255, q4, t, true);
    assert PowerScan(252, AwaitValue, 255, q4, t, true) == PowerScan(252, AwaitValue, 255, q5, t, true);
    assert PowerScan(252, AwaitValue, 255, q5, t, true) == PowerScan(252, AwaitValue, 255, q6, t, true);
  }

  /** A scan waiting for the value byte on a silent bus answers nothing. */
  lemma {:induction false} SilentValue(id: Byte, total: int, t: int, tuned: bool)
    ensures PowerScan(id, AwaitValue, total, [], t, tuned).line == []
    decreases RxTimeoutDuration - t
  {
    if t < RxTimeoutDuration {
      SilentValue(id, total, t + 1, tuned);
    }
  }

  /** So when nothing follows the reply, servo 252 with its torque off gets no answer at all. */
  lemma PowerUnanswered(t: int)
    requires t < RxTimeoutDuration
    ensures PowerScan(252, AwaitId, 0, Quiet(ServoReply(252, 0, [0])), t, true).line == []
  {
    PowerSkipped([], t);
    assert Quiet(ServoReply(252, 0, [0])) + [] == Quiet(ServoReply(252, 0, [0]));
    SilentValue(252, 255, t, true);
  }

  /* ---------------- No port, no answer ---------------- */

  /** With CHILD naming no port every read returns 0, so `r id a` never
      reaches the length byte and sends the host nothing. */
  lemma {:induction false} AngleUnheard(id: Byte, idHeard: bool, rx: seq<Poll>, t: int)
    ensures AngleScan(id, idHeard, rx, t, false).line == []
    decreases |rx|, RxTimeoutDuration - t
  {
    if t < RxTimeoutDuration {
      var p := NextPoll(rx, t, false);
      AngleUnheard(id, if idHeard then true else p.b == id, p.rest, p.t);
    }
  }

  /** Likewise `r id p` never sees a non-zero byte and sends nothing. */
  lemma {:induction false} PowerUnheard(id: Byte, phase: Phase, total: int, rx: seq<Poll>, t: int)
    ensures PowerScan(id, phase, total, rx, t, false).line == []
    decreases |rx|, RxTimeoutDuration - t
  {
    if t < RxTimeoutDuration {
      var p := NextPoll(rx, t, false);
      match phase
      case AwaitId =>
        if p.b == id {
          PowerUnheard(id, AwaitLength, id, p.rest, p.t);
        } else {
          PowerUnheard(id, AwaitId, total, p.rest, p.t);
        }
      case AwaitLength =>
        PowerUnheard(id, AwaitLength, total, p.rest, p.t);
      case AwaitValue =>
        PowerUnheard(id, AwaitValue, total, p.rest, p.t);
    }
  }
}
