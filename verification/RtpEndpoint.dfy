/** The class Rtp of src/rtp.h and the loops of src/rtp.cpp, with the fields they update in place. Time, the socket
    and the random number are inputs: each loop takes what one iteration meets from a sequence of turns, and may run
    out of them. Every method is proved to do what SenderSide and ReceiverSide say, iteration by iteration. */
module RtpEndpoint {
  import opened SequenceNumbers
  import opened Packets
  import opened Segmentation
  import opened Congestion
  import S = SenderSide
  import R = ReceiverSide
  import W = WaitingLoops

  /** `Running` if the turns ended before the method did, `Exited` if LOG_FATAL ended the process. */
  datatype Outcome = Running | Returned(code: int) | Exited

  lemma AppendAssociates(a: seq<Packet>, b: seq<Packet>, c: seq<Packet>)
    ensures (a + b) + c == a + (b + c)
  {
  }

  /** The last of the first `used` turns still found a loop running. */
  ghost predicate SenderNeeded(s: S.Sender, turns: seq<Turn>, used: nat)
    requires used <= |turns|
  {
    used > 0 ==> S.Going(S.Run(Wire, s, turns[..used - 1]).s.phase)
  }

  /** One more turn, and what has been sent by then if `before` had been sent at the start. */
  lemma SenderRunStep(s: S.Sender, turns: seq<Turn>, i: nat, before: seq<Packet>) returns (k: S.Move, m: S.Move)
    requires i < |turns|
    ensures k == S.Iterate(Wire, S.Run(Wire, s, turns[..i]).s, turns[i]) && m == S.Run(Wire, s, turns[..i + 1])
    ensures m.s == k.s && before + m.out == before + S.Run(Wire, s, turns[..i]).out + k.out
    ensures S.Going(S.Run(Wire, s, turns[..i]).s.phase) ==> SenderNeeded(s, turns, i + 1)
  {
    assert turns[..i + 1][..i] == turns[..i];
    k, m := S.Iterate(Wire, S.Run(Wire, s, turns[..i]).s, turns[i]), S.Run(Wire, s, turns[..i + 1]);
  }

  ghost predicate ReceiverNeeded(r: R.Receiver, turns: seq<Turn>, used: nat)
    requires used <= |turns|
  {
    used > 0 ==> R.Going(R.Run(Wire, r, turns[..used - 1]).r.phase)
  }

  lemma ReceiverRunStep(r: R.Receiver, turns: seq<Turn>, i: nat, before: seq<Packet>) returns (k: R.Move, m: R.Move)
    requires i < |turns|
    ensures k == R.Iterate(Wire, R.Run(Wire, r, turns[..i]).r, turns[i]) && m == R.Run(Wire, r, turns[..i + 1])
    ensures m.r == k.r && before + m.out == before + R.Run(Wire, r, turns[..i]).out + k.out
    ensures R.Going(R.Run(Wire, r, turns[..i]).r.phase) ==> ReceiverNeeded(r, turns, i + 1)
  {
    assert turns[..i + 1][..i] == turns[..i];
    k, m := R.Iterate(Wire, R.Run(Wire, r, turns[..i]).r, turns[i]), R.Run(Wire, r, turns[..i + 1]);
  }

  lemma ListeningIterates(r: R.Receiver, t: Turn)
    requires r.phase.Listening?
    ensures R.Iterate(Wire, r, t) == R.ListeningTurn(Wire, r, t)
  {
  }

  lemma AcceptingIterates(r: R.Receiver, t: Turn)
    requires r.phase.Accepting?
    ensures R.Iterate(Wire, r, t) == R.AcceptingTurn(Wire, r, t)
  {
  }

  lemma AwaitingFinIterates(r: R.Receiver, t: Turn)
    requires r.phase.AwaitingFin?
    ensures R.Iterate(Wire, r, t) == R.AwaitingFinTurn(Wire, r, t)
  {
  }

  lemma LingeringIterates(r: R.Receiver, t: Turn)
    requires r.phase.Lingering?
    ensures R.Iterate(Wire, r, t) == R.LingeringTurn(Wire, r, t)
  {
  }

  lemma SettlingIterates(s: S.Sender, t: Turn)
    requires s.phase.Settling?
    ensures S.Iterate(Wire, s, t) == S.SettlingTurn(Wire, s, t)
  {
  }

  lemma ClosingIterates(s: S.Sender, t: Turn)
    requires s.phase.Closing?
    ensures S.Iterate(Wire, s, t) == S.ClosingTurn(Wire, s, t)
  {
  }

  class Rtp {
    var connected: bool
    var cwnd: Positive
    var ssthresh: Positive
    var dupAckCount: int
    var lastAckSeq: int
    var inFastRecovery: bool
    var seqNum: int
    var seqBase: int
    var dataMap: DataMap
    var finReceived: bool
    var finSeq: int
    /** Everything handed to the socket, in order. */
    var sent: seq<Packet>

    ghost function Fin(): Option<int>
      reads this
    {
      if finReceived then Some(finSeq) else None
    }

    /** The fields are those of the sender `s`. */
    ghost predicate Sends(s: S.Sender)
      reads this
    {
      && seqBase == s.seqBase && seqNum == s.seqNum && dataMap == s.dataMap && Fin() == s.fin
      && Cong(cwnd, ssthresh, dupAckCount, inFastRecovery) == s.cong && lastAckSeq == s.lastAck
    }

    /** The fields are those of the receiver `r`. */
    ghost predicate Receives(r: R.Receiver)
      reads this
    {
      seqBase == r.seqBase && seqNum == r.seqNum && dataMap == r.dataMap && Fin() == r.fin && connected == r.connected
    }

    /** The constructor leaves seq_num, seq_base and the FIN fields as it finds them. */
    constructor (seqNum0: int, seqBase0: int, finReceived0: bool, finSeq0: int)
      ensures cwnd == 1.0 && ssthresh == 65536.0 && dupAckCount == 0 && lastAckSeq == -1 && !inFastRecovery
      ensures !connected && dataMap == map[] && sent == []
      ensures seqNum == seqNum0 && seqBase == seqBase0 && finReceived == finReceived0 && finSeq == finSeq0
    {
      connected, cwnd, ssthresh, dupAckCount, lastAckSeq, inFastRecovery := false, 1.0, 65536.0, 0, -1, false;
      seqNum, seqBase, finReceived, finSeq := seqNum0, seqBase0, finReceived0, finSeq0;
      dataMap, sent := map[], [];
    }

    method SendPacket(p: Packet)
      modifies `sent
      ensures sent == old(sent) + [p]
    {
      sent := sent + [p];
    }

    /** The part of recv_packet after the checksum: the first FIN is remembered, the first SYN opens the connection. */
    method RecvPacket(p: Packet)
      modifies `finReceived, `finSeq, `connected
      ensures Fin() == Latch(Wire, seqBase, old(connected), old(Fin()), p)
      ensures connected == (old(connected) || p.flags == RTP_SYN)
    {
      if connected {
        if p.flags == RTP_FIN {
          if !finReceived {
            finSeq := Seq32To64(seqBase, p.number);
            finReceived := true;
          }
        }
      }
      if p.flags == RTP_SYN && !connected {
        connected := true;
      }
    }

    /** waitfor: 0 with the packet that came, -1 if the wait ended in an error, 1 if in a timeout. */
    method WaitFor(flag: int, arrivals: seq<Packet>, fault: bool) returns (result: int, hit: Option<Packet>)
      modifies `finReceived, `finSeq, `connected
      ensures ReadUntil(Wire, seqBase, old(connected), old(Fin()), flag, arrivals) == Reading(Fin(), hit)
      ensures result == if hit.Some? then 0 else if fault then -1 else 1
      ensures connected == Opened(old(connected), flag, arrivals)
      ensures old(connected) ==> connected
      ensures flag == RTP_SYN ==> connected == (old(connected) || hit.Some?)
    {
      OpenedExactly(connected, flag, arrivals);
      ReadUntilHit(Wire, seqBase, connected, Fin(), flag, arrivals);
      var i := 0;
      while i < |arrivals|
        invariant i <= |arrivals|
        invariant Opened(old(connected), flag, arrivals) == Opened(connected, flag, arrivals[i..])
        invariant ReadUntil(Wire, seqBase, old(connected), old(Fin()), flag, arrivals)
               == ReadUntil(Wire, seqBase, connected, Fin(), flag, arrivals[i..])
      {
        assert arrivals[i..][0] == arrivals[i] && arrivals[i..][1..] == arrivals[i + 1..];
        RecvPacket(arrivals[i]);
        if arrivals[i].flags == flag {
          return 0, Some(arrivals[i]);
        }
        i := i + 1;
      }
      return if fault then -1 else 1, None;
    }

    // -------------------------------------------------------------- the sender

    /** A run of the loops of connect, send_file_gbn or close that started as `start`, after the first `used` turns,
        all of them needed; `before` had been sent when it started. */
    ghost predicate SenderRan(start: S.Sender, before: seq<Packet>, turns: seq<Turn>, used: nat)
      reads this
    {
      && used <= |turns|
      && SenderNeeded(start, turns, used)
      && var m := S.Run(Wire, start, turns[..used]);
         Sends(m.s) && sent == before + m.out
    }

    /** What the fields and the socket are after the move `m`, if `before` had been sent. */
    ghost predicate Sent(m: S.Move, before: seq<Packet>)
      reads this
    {
      Sends(m.s) && sent == before + m.out
    }

    /** One wait for the SYN&ACK: 1 if it came, 0 to go on waiting, 2 after a resend, -1 on an error. */
    method AwaitSynAck(x: int, t: Turn, ghost s: S.Sender) returns (result: int)
      requires connected && Sends(s) && s.phase.Connecting? && s.isn == x
      modifies this
      ensures connected && Sent(S.ConnectingTurn(Wire, s, t), old(sent))
      ensures var y := S.ConnectingTurn(Wire, s, t).s;
              && y.isn == x
              && (result == 1 <==> y.phase.Settling?)
              && (result == -1 ==> y.phase.Failed?)
              && (result == 0 ==> y.phase.Connecting? && y.retry == s.retry)
              && (result == 2 ==> y.retry == s.retry + 1 && y.phase == if y.retry > 50 then S.Failed else S.Connecting)
              && result in {-1, 0, 1, 2}
    {
      var wait, hit := WaitFor(RTP_SYN_ACK, t.arrivals, t.fault);
      if wait == 0 {
        if hit.value.number == IncSeq32(x) {
          seqBase := Seq32To64(seqBase, x);
          seqNum := Seq32To64(seqBase, x);
          SendPacket(Header(IncSeq32(x), RTP_ACK));
          return 1;
        }
        return 0;
      } else if wait == -1 {
        return -1;
      }
      SendPacket(Header(x, RTP_SYN));
      return 2;
    }

    /** One iteration of the two seconds after the handshake ACK: the code to return, if any. */
    method AnswerSynAck(x: int, t: Turn, ghost s: S.Sender) returns (result: Option<int>)
      requires connected && Sends(s) && s.phase.Settling? && s.isn == x
      modifies this
      ensures connected && Sent(S.SettlingTurn(Wire, s, t), old(sent))
      ensures S.SettlingTurn(Wire, s, t).s.isn == x
      ensures S.SettlingTurn(Wire, s, t).s.phase
           == if result.None? then S.Settling else if result.value == 0 then S.Connected else S.Failed
      ensures result.Some? ==> result.value == 0 || result.value == -1
    {
      if t.late {
        return Some(0);
      }
      var wait, hit := WaitFor(RTP_SYN_ACK, t.arrivals, t.fault);
      if wait == 0 {
        if hit.value.number == IncSeq32(x) {
          SendPacket(Header(IncSeq32(x), RTP_ACK));
        }
      } else if wait == -1 {
        return Some(-1);
      }
      return None;
    }

    static ghost function ConnectOutcome(phase: S.Phase): Outcome {
      if phase.Connected? then Returned(0) else if phase.Failed? then Returned(-1) else Running
    }

    /** The two seconds after the handshake ACK, from turn `from` on. */
    method Settle(x: int, turns: seq<Turn>, from: nat, ghost start: S.Sender, ghost before: seq<Packet>)
      returns (outcome: Outcome, used: nat)
      requires connected && SenderRan(start, before, turns, from)
      requires var s := S.Run(Wire, start, turns[..from]).s; s.phase.Settling? && s.isn == x
      modifies this
      ensures connected && SenderRan(start, before, turns, used)
      ensures outcome == ConnectOutcome(S.Run(Wire, start, turns[..used]).s.phase)
      ensures outcome.Running? ==> used == |turns|
    {
      used := from;
      var result: Option<int> := None;
      while result.None? && used < |turns|
        invariant connected && SenderRan(start, before, turns, used)
        invariant var s := S.Run(Wire, start, turns[..used]).s;
                  && s.isn == x
                  && s.phase == if result.None? then S.Settling else if result.value == 0 then S.Connected else S.Failed
        invariant result.Some? ==> result.value == 0 || result.value == -1
      {
        ghost var y := S.Run(Wire, start, turns[..used]).s;
        result := AnswerSynAck(x, turns[used], y);
        ghost var k, m := SenderRunStep(start, turns, used, before);
        SettlingIterates(y, turns[used]);
        used := used + 1;
      }
      return if result.None? then Running else Returned(result.value), used;
    }

    method Connect(x: int, turns: seq<Turn>, ghost s: S.Sender) returns (outcome: Outcome, used: nat)
      requires Sends(s)
      modifies this
      ensures connected
      ensures SenderRan(S.StartConnect(s, x).s, old(sent) + S.StartConnect(s, x).out, turns, used)
      ensures outcome == ConnectOutcome(S.Run(Wire, S.StartConnect(s, x).s, turns[..used]).s.phase)
      ensures outcome.Running? ==> used == |turns|
    {
      ghost var start := S.StartConnect(s, x).s;
      ghost var before := sent + [Header(x, RTP_SYN)];
      finReceived := false;
      seqBase := x;
      connected := true;
      SendPacket(Header(x, RTP_SYN));
      var retry, answered := 0, false;
      used := 0;
      assert turns[..0] == [];
      ghost var m, k := S.Move(start, []), S.Move(start, []);
      while retry <= 50 && !answered
        invariant used <= |turns| && connected
        invariant m == S.Run(Wire, start, turns[..used]) && Sent(m, before) && m.s.isn == x
        invariant SenderNeeded(start, turns, used)
        invariant if answered then retry <= 50 && m.s.phase.Settling?
                  else m.s.retry == retry && m.s.phase == if retry > 50 then S.Failed else S.Connecting
        decreases |turns| - used
      {
        if used == |turns| {
          return Running, used;
        }
        var result := AwaitSynAck(x, turns[used], m.s);
        k, m := SenderRunStep(start, turns, used, before);
        used := used + 1;
        if result == -1 {
          return Returned(-1), used;
        } else if result == 1 {
          answered := true;
        } else if result == 2 {
          retry := retry + 1;
        }
      }
      if retry > 50 {
        return Returned(-1), used;
      }
      outcome, used := Settle(x, turns, used, start, before);
    }

    /** The fill loop of send_file_gbn. It ends exactly if the map holds every number it comes to: on a missing one
        the loop would look it up for ever. What it leaves unsent is past the file or outside the window. */
    method SendWindow(base: int, next: int, highest: int, ghost end: int) returns (newNext: int)
      requires end == S.FillTo(base, next, highest, cwnd) && forall k :: next <= k < end ==> k in dataMap
      modifies `sent
      ensures newNext == end && sent == old(sent) + S.Stored(dataMap, next, end)
      ensures newNext > highest || newNext as real >= base as real + cwnd
    {
      newNext := next;
      while S.InWindow(base, newNext, highest, cwnd)
        invariant next <= newNext <= end
        invariant sent == old(sent) + S.Stored(dataMap, next, newNext)
        decreases end - newNext
      {
        S.WindowEnds(base, next, newNext, highest, cwnd);
        if newNext in dataMap {
          SendPacket(dataMap[newNext]);
          newNext := newNext + 1;
        }
      }
      S.WindowEnds(base, next, newNext, highest, cwnd);
      S.WindowFull(base, next, highest, cwnd);
    }

    /** The answer of send_file_gbn to its retransmission timer: the window closes to 1, and all of it is sent again. */
    method ResendWindow(base: int, next: int)
      requires base < next
      modifies `cwnd, `ssthresh, `dupAckCount, `inFastRecovery, `sent
      ensures Cong(cwnd, ssthresh, dupAckCount, inFastRecovery)
           == OnTimeout(old(Cong(cwnd, ssthresh, dupAckCount, inFastRecovery)))
      ensures sent == old(sent) + S.Stored(dataMap, base, next)
    {
      ssthresh := Max(cwnd / 2.0, 2.0);
      cwnd := 1.0;
      dupAckCount := 0;
      inFastRecovery := false;
      var resend := base;
      while resend < next
        invariant base <= resend <= next
        invariant Cong(cwnd, ssthresh, dupAckCount, inFastRecovery)
               == OnTimeout(old(Cong(cwnd, ssthresh, dupAckCount, inFastRecovery)))
        invariant sent == old(sent) + S.Stored(dataMap, base, resend)
      {
        if resend in dataMap {
          SendPacket(dataMap[resend]);
        }
        resend := resend + 1;
      }
    }

    /** A new cumulative ACK: recovery ends, or the window grows. */
    method CountNewAck(ghost c: Cong)
      requires c == Cong(cwnd, ssthresh, dupAckCount, inFastRecovery)
      modifies `cwnd, `dupAckCount, `inFastRecovery
      ensures Cong(cwnd, ssthresh, dupAckCount, inFastRecovery) == OnNewAck(c)
    {
      if inFastRecovery {
        cwnd := ssthresh;
        inFastRecovery := false;
        dupAckCount := 0;
      } else if cwnd < ssthresh {
        cwnd := cwnd + 1.0;
      } else {
        QuotientBounds(1.0, cwnd);
        cwnd := cwnd + 1.0 / cwnd;
      }
      dupAckCount := 0;
    }

    /** A duplicate ACK for the packet before `base`: the third one, and every later one, repeats `base`; if the map
        does not hold it, the window stays as it is. */
    method CountDuplicate(base: int, ghost c: Cong)
      requires c == Cong(cwnd, ssthresh, dupAckCount, inFastRecovery)
      modifies `cwnd, `ssthresh, `dupAckCount, `inFastRecovery, `sent
      ensures Cong(cwnd, ssthresh, dupAckCount, inFastRecovery) == S.CountDup(c, base in dataMap)
      ensures sent == old(sent) + if DupCount(c) == 3 && base in dataMap then [dataMap[base]] else []
    {
      if !inFastRecovery {
        dupAckCount := dupAckCount + 1;
      }
      if dupAckCount == 3 {
        if base in dataMap {
          SendPacket(dataMap[base]);
          inFastRecovery := true;
          ssthresh := Max(cwnd / 2.0, 2.0);
          cwnd := ssthresh + 3.0;
        }
      } else if inFastRecovery {
        cwnd := cwnd + 1.0;
      }
    }

    /** A new cumulative ACK slides the window and is counted. */
    method SlideWindow(ackSeq: int, ghost s: S.Sender) returns (newBase: int)
      requires Sends(s) && ackSeq + 1 > s.base
      modifies `cwnd, `dupAckCount, `lastAckSeq, `inFastRecovery
      ensures Sent(S.Move(s.(base := newBase, lastAck := ackSeq, cong := OnNewAck(s.cong)), []), old(sent))
      ensures newBase == ackSeq + 1
    {
      newBase := ackSeq + 1;
      lastAckSeq := ackSeq;
      CountNewAck(s.cong);
    }

    /** A duplicate ACK is counted, and may repeat `base`. */
    method RepeatBase(base: int, ghost s: S.Sender)
      requires Sends(s) && s.base == base
      modifies `cwnd, `ssthresh, `dupAckCount, `inFastRecovery, `sent
      ensures Sent(S.OnAck(s, base - 1), old(sent))
    {
      OneStored(dataMap, base);
      CountDuplicate(base, s.cong);
    }

    /** What the send loop does with a received ACK: slide the window, or count a duplicate. */
    method TakeAck(base: int, ackSeq: int, ghost s: S.Sender) returns (newBase: int)
      requires Sends(s) && s.base == base
      modifies `cwnd, `ssthresh, `dupAckCount, `lastAckSeq, `inFastRecovery, `sent
      ensures Sent(S.OnAck(s, ackSeq), old(sent)) && newBase == S.OnAck(s, ackSeq).s.base
    {
      newBase := base;
      if ackSeq + 1 > base {
        newBase := SlideWindow(ackSeq, s);
      } else if ackSeq + 1 == base {
        RepeatBase(base, s);
      }
    }

    static lemma OneStored(m: DataMap, k: int)
      ensures S.Stored(m, k, k + 1) == if k in m then [m[k]] else []
    {
      assert S.Stored(m, k, k) == [];
    }

    /** The first half of an iteration of the send loop. */
    method FillAndResend(base: int, next: int, highest: int, rto: bool, ghost s: S.Sender) returns (newNext: int)
      requires Sends(s) && s.base == base && s.next == next && s.highest == highest
      requires forall k :: next <= k < S.FillTo(base, next, highest, cwnd) ==> k in dataMap
      modifies `cwnd, `ssthresh, `dupAckCount, `inFastRecovery, `sent
      ensures Sent(S.FillWindow(s, rto), old(sent)) && newNext == S.FillWindow(s, rto).s.next
    {
      newNext := SendWindow(base, next, highest, S.FillTo(base, next, highest, cwnd));
      if base < newNext && rto {
        ResendWindow(base, newNext);
        AppendAssociates(old(sent), S.Stored(dataMap, next, newNext), S.Stored(dataMap, base, newNext));
      }
    }

    /** The second half: wait for an ACK and act on it. */
    method WaitAndTake(base: int, t: Turn, ghost s: S.Sender) returns (newBase: int)
      requires connected && Sends(s) && s.base == base
      modifies this
      ensures connected && Sent(S.AwaitAck(Wire, s, t.arrivals), old(sent))
      ensures newBase == S.AwaitAck(Wire, s, t.arrivals).s.base
    {
      newBase := base;
      var wait, hit := WaitFor(RTP_ACK, t.arrivals, t.fault);
      if wait == 0 {
        newBase := TakeAck(base, Seq32To64(seqBase, hit.value.number), s.(fin := Fin()));
      }
    }

    /** One iteration of the loop of send_file_gbn: true if the process exits. */
    method SendOnce(base: int, next: int, highest: int, t: Turn, ghost s: S.Sender)
      returns (exit: bool, newBase: int, newNext: int)
      requires connected && Sends(s) && s.phase.Sending? && s.base == base && s.next == next && s.highest == highest
      requires forall k :: next <= k < S.FillTo(base, next, highest, cwnd) ==> k in dataMap
      modifies this
      ensures connected && dataMap == old(dataMap) && Sent(S.SendingTurn(Wire, s, t), old(sent))
      ensures var y := S.SendingTurn(Wire, s, t).s;
              && y.base == newBase && y.next == newNext && y.highest == highest && newBase >= base && newNext >= next
              && y.phase == if exit then S.Failed else if newBase <= highest then S.Sending else S.Sent
    {
      if t.late {
        return true, base, next;
      }
      newNext := FillAndResend(base, next, highest, t.rto, s);
      ghost var filled := S.FillWindow(s, t.rto);
      newBase := WaitAndTake(base, t, filled.s);
      AppendAssociates(old(sent), filled.out, S.AwaitAck(Wire, filled.s, t.arrivals).out);
      return false, newBase, newNext;
    }

    static ghost function SendOutcome(phase: S.Phase): Outcome {
      if phase.Sent? then Returned(0) else if phase.Failed? then Exited else Running
    }

    /** The loop of send_file_gbn, from its entry on; an empty file returns at once. */
    method SendFileGbn(totalPackets: nat, turns: seq<Turn>, ghost s: S.Sender) returns (outcome: Outcome, used: nat)
      requires connected && Sends(s)
      requires forall k :: seqNum + 1 <= k <= seqNum + totalPackets ==> k in dataMap
      modifies this
      ensures connected && dataMap == old(dataMap)
      ensures SenderRan(S.StartSend(s, s.dataMap, totalPackets), old(sent), turns, used)
      ensures outcome == SendOutcome(S.Run(Wire, S.StartSend(s, s.dataMap, totalPackets), turns[..used]).s.phase)
      ensures outcome.Running? ==> used == |turns|
      ensures totalPackets == 0 ==> used == 0
    {
      ghost var start := S.StartSend(s, s.dataMap, totalPackets);
      assert turns[..0] == [];
      used := 0;
      if totalPackets == 0 {
        return Returned(0), used;
      }
      var base, next, highest := seqNum + 1, seqNum + 1, seqNum + totalPackets;
      while base <= highest
        invariant connected && dataMap == s.dataMap && SenderRan(start, old(sent), turns, used)
        invariant s.seqNum + 1 <= base && s.seqNum + 1 <= next && highest == s.seqNum + totalPackets
        invariant var y := S.Run(Wire, start, turns[..used]).s;
                  && y.base == base && y.next == next && y.highest == highest
                  && y.phase == if base <= highest then S.Sending else S.Sent
        decreases |turns| - used
      {
        if used == |turns| {
          return Running, used;
        }
        ghost var y := S.Run(Wire, start, turns[..used]).s;
        var exit;
        exit, base, next := SendOnce(base, next, highest, turns[used], y);
        ghost var k, m := SenderRunStep(start, turns, used, old(sent));
        used := used + 1;
        if exit {
          return Exited, used;
        }
      }
      return Returned(0), used;
    }

    static ghost function PacketAt(first: int, file: Bytes, k: int): Packet {
      if first <= k < first + TotalPackets(file) then Data(Seq64To32(k), Segment(file, k - first)) else Header(0, 0)
    }

    /** The first `n` packets of the file are in the map, except under numbers that the map `older` held already. */
    static ghost predicate PackedTo(m: DataMap, first: int, file: Bytes, n: nat, older: DataMap) {
      && n <= TotalPackets(file)
      && (forall k :: k in m <==> k in older || first <= k < first + n)
      && (forall k :: k in m ==> m[k] == if k in older then older[k] else PacketAt(first, file, k))
    }

    static lemma PackOne(m: DataMap, first: int, file: Bytes, i: nat, older: DataMap, p: Packet)
      requires i < TotalPackets(file) && PackedTo(m, first, file, i, older)
      requires p == Data(Seq64To32(first + i), Segment(file, i))
      ensures PackedTo(if first + i in m then m else m[first + i := p], first, file, i + 1, older)
    {
    }

    /** With no older entries the map is the one the transfer starts from. */
    static lemma PackedAfresh(m: DataMap, first: int, file: Bytes)
      requires PackedTo(m, first, file, TotalPackets(file), map[])
      ensures m == Packetize(Wire, first, file)
    {
    }

    static method CountPackets(file: Bytes) returns (fileSize: nat, totalPackets: nat)
      ensures fileSize == FileSize(file) && totalPackets == TotalPackets(file)
    {
      fileSize := |file| % UINT32;
      totalPackets := ((fileSize + PAYLOAD_MAX - 1) % UINT32) / PAYLOAD_MAX;
    }

    /** One slice of the file buffer. */
    static method NextSegment(file: Bytes, fileSize: nat, totalPackets: nat, i: nat) returns (payload: Bytes)
      requires fileSize == FileSize(file) && totalPackets == TotalPackets(file) && i < totalPackets
      ensures payload == Segment(file, i)
    {
      var length :=
        if i == totalPackets - 1 && fileSize % PAYLOAD_MAX != 0 then fileSize % PAYLOAD_MAX else PAYLOAD_MAX;
      var offset := (i * PAYLOAD_MAX) % UINT32;
      assert length == SegmentLength(file, i) && offset == SegmentOffset(file, i);
      payload := file[offset..offset + length];
    }

    /** The packing loop of send_file, in unsigned 32-bit arithmetic; insertion never overwrites. */
    method PackFile(file: Bytes) returns (totalPackets: nat)
      modifies `dataMap
      ensures totalPackets == TotalPackets(file)
      ensures PackedTo(dataMap, seqNum + 1, file, totalPackets, old(dataMap))
    {
      var fileSize;
      fileSize, totalPackets := CountPackets(file);
      var i, first := 0, seqNum + 1;
      while i < totalPackets
        invariant PackedTo(dataMap, first, file, i, old(dataMap))
      {
        var payload := NextSegment(file, fileSize, totalPackets, i);
        var packet := Data(Seq64To32(first + i), payload);
        PackOne(dataMap, first, file, i, old(dataMap), packet);
        if first + i !in dataMap {
          dataMap := dataMap[first + i := packet];
        }
        i := i + 1;
      }
    }

    /** The end of send_file: the map is emptied and the sequence number moved past the file. */
    method FinishSend(totalPackets: nat, ghost m: S.Move, ghost before: seq<Packet>)
      requires Sent(m, before)
      modifies `dataMap, `seqNum
      ensures Sent(S.Move(S.EndSend(m.s, totalPackets), m.out), before)
    {
      dataMap := map[];
      seqNum := seqNum + totalPackets;
    }

    /** The sender as send_file enters send_file_gbn with an empty map. */
    static ghost function SendStart(s: S.Sender, file: Bytes): S.Sender {
      S.StartSend(s, Packetize(Wire, s.seqNum + 1, file), TotalPackets(file))
    }

    /** The sender as send_file enters send_file_gbn, whatever the map held before. */
    static lemma SendStarts(s: S.Sender, file: Bytes, packets: DataMap) returns (start: S.Sender)
      requires PackedTo(packets, s.seqNum + 1, file, TotalPackets(file), s.dataMap)
      ensures start == S.StartSend(s, packets, TotalPackets(file))
           == S.StartSend(s.(dataMap := packets), packets, TotalPackets(file))
      ensures s.dataMap == map[] ==> start == SendStart(s, file)
    {
      start := S.StartSend(s, packets, TotalPackets(file));
      if s.dataMap == map[] {
        PackedAfresh(packets, s.seqNum + 1, file);
      }
    }

    /** send_file: pack, send and finish. The send loop starts as `start`. */
    method SendFile(file: Bytes, turns: seq<Turn>, ghost s: S.Sender)
      returns (outcome: Outcome, used: nat, ghost start: S.Sender)
      requires connected && Sends(s)
      modifies this
      ensures connected && used <= |turns| && SenderNeeded(start, turns, used)
      ensures start == S.StartSend(s, start.dataMap, TotalPackets(file))
      ensures PackedTo(start.dataMap, s.seqNum + 1, file, TotalPackets(file), s.dataMap)
      ensures s.dataMap == map[] ==> start == SendStart(s, file)
      ensures var m := S.Run(Wire, start, turns[..used]);
              && outcome == SendOutcome(m.s.phase)
              && (outcome == Returned(0) ==> Sent(S.Move(S.EndSend(m.s, TotalPackets(file)), m.out), old(sent)))
              && (outcome != Returned(0) ==> Sent(m, old(sent)))
      ensures outcome.Running? ==> used == |turns|
      ensures TotalPackets(file) == 0 ==> used == 0
    {
      var totalPackets := PackFile(file);
      start := SendStarts(s, file, dataMap);
      outcome, used := SendFileGbn(totalPackets, turns, s.(dataMap := dataMap));
      if outcome == Returned(0) {
        FinishSend(totalPackets, S.Run(Wire, start, turns[..used]), old(sent));
      }
    }

    static ghost function CloseOutcome(phase: S.Phase): Outcome {
      if phase.Closed? then Returned(0) else if phase.Failed? then Returned(-1) else Running
    }

    /** One iteration of the loop of close: the code to return, if any. */
    method AwaitFinAck(number: int, t: Turn, ghost s: S.Sender) returns (result: Option<int>)
      requires connected && Sends(s) && s.phase.Closing? && number == Seq64To32(s.seqNum)
      modifies this
      ensures connected && seqNum == old(seqNum) && Sent(S.ClosingTurn(Wire, s, t), old(sent))
      ensures S.ClosingTurn(Wire, s, t).s.phase
           == if result.None? then S.Closing else if result.value == 0 then S.Closed else S.Failed
      ensures result.Some? ==> result.value == 0 || result.value == -1
    {
      if t.late {
        return Some(-1);
      }
      var wait, hit := WaitFor(RTP_FIN_ACK, t.arrivals, t.fault);
      if wait == 0 {
        return if hit.value.number == number then Some(0) else None;
      } else if wait == -1 {
        return Some(-1);
      }
      SendPacket(Header(number, RTP_FIN));
      return None;
    }

    /** The loop of close. */
    method AwaitClose(number: int, turns: seq<Turn>, ghost start: S.Sender, ghost before: seq<Packet>)
      returns (outcome: Outcome, used: nat)
      requires connected && SenderRan(start, before, turns, 0) && number == Seq64To32(seqNum)
      requires S.Run(Wire, start, turns[..0]).s.phase.Closing?
      modifies this
      ensures connected && SenderRan(start, before, turns, used)
      ensures outcome == CloseOutcome(S.Run(Wire, start, turns[..used]).s.phase)
      ensures outcome.Running? ==> used == |turns|
    {
      used := 0;
      var result: Option<int> := None;
      while result.None? && used < |turns|
        invariant connected && number == Seq64To32(seqNum) && SenderRan(start, before, turns, used)
        invariant S.Run(Wire, start, turns[..used]).s.phase
               == if result.None? then S.Closing else if result.value == 0 then S.Closed else S.Failed
        invariant result.Some? ==> result.value == 0 || result.value == -1
      {
        ghost var y := S.Run(Wire, start, turns[..used]).s;
        result := AwaitFinAck(number, turns[used], y);
        ghost var k, m := SenderRunStep(start, turns, used, before);
        ClosingIterates(y, turns[used]);
        used := used + 1;
      }
      return if result.None? then Running else Returned(result.value), used;
    }

    /** What close returns: 0 if the FIN&ACK with the right number ends its loop, and -1 at the deadline or an error. */
    static ghost function CloseResult(ending: Option<W.Heard>): Outcome {
      match ending
      case None => Running
      case Some(Answer) => Returned(0)
      case _ => Returned(-1)
    }

    static lemma CloseDecided(s: S.Sender, turns: seq<Turn>, used: nat)
      requires s.phase.Closing? && used <= |turns|
      requires S.Run(Wire, s, turns[..used]).s.phase.Closing? ==> used == |turns|
      ensures CloseOutcome(S.Run(Wire, s, turns[..used]).s.phase)
           == CloseResult(W.Ending(W.CloseWait(Seq64To32(s.seqNum)), turns))
    {
      var w := W.CloseWait(Seq64To32(s.seqNum));
      W.CloseLoop(Wire, s, turns[..used]);
      W.EndingKind(w, turns[..used]);
      if W.Ending(w, turns[..used]).Some? {
        W.EndingStays(w, turns, used);
      } else {
        assert turns[..used] == turns;
      }
    }

    method Close(turns: seq<Turn>, ghost s: S.Sender) returns (outcome: Outcome, used: nat)
      requires connected && Sends(s)
      modifies this
      ensures SenderRan(S.StartClose(Wire, s).s, old(sent) + S.StartClose(Wire, s).out, turns, used)
      ensures outcome == CloseOutcome(S.Run(Wire, S.StartClose(Wire, s).s, turns[..used]).s.phase)
      ensures outcome.Running? ==> used == |turns|
      ensures connected == (outcome != Returned(0))
      ensures outcome == CloseResult(W.Ending(W.CloseWait(Seq64To32(old(seqNum) + 1)), turns))
    {
      seqNum := seqNum + 1;
      var number := Seq64To32(seqNum);
      SendPacket(Header(number, RTP_FIN));
      assert turns[..0] == [];
      outcome, used := AwaitClose(number, turns, S.StartClose(Wire, s).s, sent);
      CloseDecided(S.StartClose(Wire, s).s, turns, used);
      if outcome == Returned(0) {
        connected := false;
      }
    }

    // -------------------------------------------------------------- the receiver

    /** What the fields and the socket are after the move `m`, if `before` had been sent. */
    ghost predicate Replied(m: R.Move, before: seq<Packet>)
      reads this
    {
      Receives(m.r) && sent == before + m.out
    }

    ghost predicate ReceiverRan(start: R.Receiver, before: seq<Packet>, turns: seq<Turn>, used: nat)
      reads this
    {
      used <= |turns| && ReceiverNeeded(start, turns, used) && Replied(R.Run(Wire, start, turns[..used]), before)
    }

    /** One wait for the SYN: 1 if it came, 0 to go on, -1 after the deadline or an error. */
    method AwaitSyn(t: Turn, ghost r: R.Receiver) returns (result: int, reply: int)
      requires Receives(r) && r.phase.Listening?
      modifies this
      ensures Replied(R.ListeningTurn(Wire, r, t), old(sent))
      ensures R.ListeningTurn(Wire, r, t).r.phase
           == if result == 1 then R.Accepting(reply) else if result == 0 then R.Listening else R.Failed
      ensures result in {-1, 0, 1} && (result == 1 ==> connected)
    {
      reply := 0;
      if t.late {
        return -1, reply;
      }
      var wait, hit := WaitFor(RTP_SYN, t.arrivals, t.fault);
      if wait == 0 {
        seqBase := Seq32To64(seqBase, hit.value.number);
        seqNum := Seq32To64(seqBase, hit.value.number);
        reply := IncSeq32(hit.value.number);
        SendPacket(Header(reply, RTP_SYN_ACK));
        return 1, reply;
      }
      return if wait == -1 then -1 else 0, reply;
    }

    /** One wait for the handshake ACK: the code to return, if any. */
    method AwaitHandshakeAck(reply: int, t: Turn, ghost r: R.Receiver) returns (result: Option<int>)
      requires connected && Receives(r) && r.phase == R.Accepting(reply)
      modifies this
      ensures connected && Replied(R.AcceptingTurn(Wire, r, t), old(sent))
      ensures R.AcceptingTurn(Wire, r, t).r.phase
           == if result.None? then R.Accepting(reply) else if result.value == 0 then R.Accepted else R.Failed
      ensures result.Some? ==> result.value == 0 || result.value == -1
    {
      if t.late {
        return Some(-1);
      }
      var wait, hit := WaitFor(RTP_ACK, t.arrivals, t.fault);
      if wait == 0 {
        return if hit.value.number == reply then Some(0) else None;
      } else if wait == -1 {
        return Some(-1);
      }
      SendPacket(Header(reply, RTP_SYN_ACK));
      return None;
    }

    static ghost function AcceptOutcome(phase: R.Phase): Outcome {
      if phase.Accepted? then Returned(0) else if phase.Failed? then Returned(-1) else Running
    }

    /** The wait for the handshake ACK, from turn `from` on. */
    method Accept(reply: int, turns: seq<Turn>, from: nat, ghost start: R.Receiver, ghost before: seq<Packet>)
      returns (outcome: Outcome, used: nat)
      requires connected && ReceiverRan(start, before, turns, from)
      requires R.Run(Wire, start, turns[..from]).r.phase == R.Accepting(reply)
      modifies this
      ensures connected && ReceiverRan(start, before, turns, used)
      ensures outcome == AcceptOutcome(R.Run(Wire, start, turns[..used]).r.phase)
      ensures outcome.Running? ==> used == |turns|
    {
      used := from;
      var result: Option<int> := None;
      while result.None? && used < |turns|
        invariant connected && ReceiverRan(start, before, turns, used)
        invariant R.Run(Wire, start, turns[..used]).r.phase
               == if result.None? then R.Accepting(reply) else if result.value == 0 then R.Accepted else R.Failed
        invariant result.Some? ==> result.value == 0 || result.value == -1
      {
        ghost var y := R.Run(Wire, start, turns[..used]).r;
        result := AwaitHandshakeAck(reply, turns[used], y);
        ghost var k, m := ReceiverRunStep(start, turns, used, before);
        AcceptingIterates(y, turns[used]);
        used := used + 1;
      }
      return if result.None? then Running else Returned(result.value), used;
    }

    /** The five seconds in which a SYN may come: the result of the last wait, and the reply to the SYN. */
    method Listen(turns: seq<Turn>, ghost start: R.Receiver, ghost before: seq<Packet>)
      returns (result: int, reply: int, used: nat)
      requires ReceiverRan(start, before, turns, 0) && R.Run(Wire, start, turns[..0]).r.phase.Listening?
      modifies this
      ensures ReceiverRan(start, before, turns, used)
      ensures R.Run(Wire, start, turns[..used]).r.phase
           == if result == 1 then R.Accepting(reply) else if result == 0 then R.Listening else R.Failed
      ensures result in {-1, 0, 1} && (result == 1 ==> connected) && (result == 0 ==> used == |turns|)
    {
      result, reply, used := 0, 0, 0;
      while result == 0 && used < |turns|
        invariant ReceiverRan(start, before, turns, used)
        invariant R.Run(Wire, start, turns[..used]).r.phase
               == if result == 1 then R.Accepting(reply) else if result == 0 then R.Listening else R.Failed
        invariant result in {-1, 0, 1} && (result == 1 ==> connected)
      {
        ghost var y := R.Run(Wire, start, turns[..used]).r;
        result, reply := AwaitSyn(turns[used], y);
        ghost var k, m := ReceiverRunStep(start, turns, used, before);
        ListeningIterates(y, turns[used]);
        used := used + 1;
      }
    }

    method WaitConnect(turns: seq<Turn>, ghost r: R.Receiver) returns (outcome: Outcome, used: nat)
      requires Receives(r)
      modifies this
      ensures ReceiverRan(R.StartListen(r), old(sent), turns, used)
      ensures outcome == AcceptOutcome(R.Run(Wire, R.StartListen(r), turns[..used]).r.phase)
      ensures outcome.Running? ==> used == |turns|
      ensures outcome == Returned(0) ==> connected
    {
      finReceived := false;
      assert turns[..0] == [];
      ghost var before := sent;
      var result, reply;
      result, reply, used := Listen(turns, R.StartListen(r), before);
      if result != 1 {
        return if result == 0 then Running else Returned(-1), used;
      }
      outcome, used := Accept(reply, turns, used, R.StartListen(r), before);
    }

    /** What recv_file_gbn does with a DAT packet: buffer it, move recv_base over everything present, and send the
        cumulative ACK. */
    method StoreAndAck(recvBase: int, p: Packet, ghost r: R.Receiver) returns (newBase: int)
      requires Receives(r) && r.recvBase == recvBase
      modifies `dataMap, `sent
      ensures Replied(R.OnData(Wire, r, p), old(sent)) && newBase == R.OnData(Wire, r, p).r.recvBase
    {
      var k := Seq32To64(seqBase, p.number);
      if k >= recvBase && k !in dataMap {
        dataMap := dataMap[k := p];
      }
      newBase := recvBase;
      while newBase in dataMap
        invariant dataMap == R.Store(Wire, r, p) && sent == old(sent)
        invariant R.FirstGap(dataMap.Keys, recvBase) == R.FirstGap(dataMap.Keys, newBase)
        decreases |R.Above(dataMap.Keys, newBase)|
      {
        R.FewerAbove(dataMap.Keys, newBase);
        newBase := newBase + 1;
      }
      SendPacket(Header(Seq64To32(newBase - 1), RTP_ACK));
    }

    /** One iteration of the loop of recv_file_gbn: how it ends, or `Running` if it goes on. */
    method ReceiveOnce(recvBase: int, t: Turn, ghost r: R.Receiver) returns (result: Outcome, newBase: int)
      requires connected && Receives(r) && r.phase.Receiving? && r.recvBase == recvBase
      modifies this
      ensures connected && Replied(R.ReceivingTurn(Wire, r, t), old(sent))
      ensures newBase == R.ReceivingTurn(Wire, r, t).r.recvBase
      ensures result == ReceiveOutcome(R.ReceivingTurn(Wire, r, t).r.phase)
    {
      newBase := recvBase;
      if t.late {
        if finReceived && finSeq > recvBase {
          return Returned(0), newBase;
        }
        return Exited, newBase;
      }
      if finReceived && recvBase >= finSeq {
        return Returned(0), newBase;
      }
      var wait, hit := WaitFor(RTP_DAT, t.arrivals, t.fault);
      if wait == 0 {
        newBase := StoreAndAck(recvBase, hit.value, r.(fin := Fin()));
      }
      return Running, newBase;
    }

    static ghost function ReceiveOutcome(phase: R.Phase): Outcome {
      if phase.Received? then Returned(0) else if phase.Failed? then Exited else Running
    }

    method RecvFileGbn(turns: seq<Turn>, ghost r: R.Receiver) returns (outcome: Outcome, used: nat)
      requires connected && Receives(r)
      modifies this
      ensures connected && ReceiverRan(R.StartReceive(r), old(sent), turns, used)
      ensures outcome == ReceiveOutcome(R.Run(Wire, R.StartReceive(r), turns[..used]).r.phase)
      ensures outcome.Running? ==> used == |turns|
    {
      ghost var start, before := R.StartReceive(r), sent;
      var recvBase := seqNum + 1;
      outcome, used := Running, 0;
      assert turns[..0] == [];
      while outcome.Running? && used < |turns|
        invariant connected && ReceiverRan(start, before, turns, used)
        invariant var y := R.Run(Wire, start, turns[..used]).r;
                  && y.recvBase == recvBase && outcome == ReceiveOutcome(y.phase)
                  && (outcome.Running? ==> y.phase.Receiving?)
      {
        ghost var y := R.Run(Wire, start, turns[..used]).r;
        outcome, recvBase := ReceiveOnce(recvBase, turns[used], y);
        ghost var k, m := ReceiverRunStep(start, turns, used, before);
        used := used + 1;
      }
    }

    /** The writing loop of recv_file: every payload, in ascending order of the keys. */
    method WriteFile() returns (bytes: Bytes)
      ensures bytes == InOrder(dataMap)
    {
      bytes := [];
      var rest := dataMap;
      while rest != map[]
        invariant bytes + InOrder(rest) == InOrder(dataMap)
        decreases |rest|
      {
        SomeLeastKey(rest.Keys);
        var k :| k in rest.Keys && forall j :: j in rest.Keys ==> k <= j;
        InOrderStep(rest, k);
        Associates(bytes, rest[k].payload, InOrder(rest - {k}));
        bytes := bytes + rest[k].payload;
        rest := rest - {k};
      }
      assert InOrder(rest) == [];
    }

    /** recv_file: receive, write the map, and empty it. */
    method RecvFile(turns: seq<Turn>, ghost r: R.Receiver) returns (outcome: Outcome, used: nat, written: Option<Bytes>)
      requires connected && Receives(r)
      modifies this
      ensures connected && used <= |turns| && ReceiverNeeded(R.StartReceive(r), turns, used)
      ensures var m := R.Run(Wire, R.StartReceive(r), turns[..used]);
              && outcome == ReceiveOutcome(m.r.phase)
              && (outcome == Returned(0) ==>
                    Replied(R.Move(R.EndReceive(m.r), m.out), old(sent)) && written == Some(InOrder(m.r.dataMap)))
              && (outcome != Returned(0) ==> Replied(m, old(sent)) && written.None?)
      ensures outcome.Running? ==> used == |turns|
    {
      outcome, used := RecvFileGbn(turns, r);
      written := None;
      if outcome == Returned(0) {
        var bytes := WriteFile();
        written := Some(bytes);
        seqNum := seqNum + |dataMap|;
        dataMap := map[];
      }
    }

    static ghost function WaitCloseOutcome(phase: R.Phase): Outcome {
      if phase.Done? then Returned(0) else if phase.Failed? then Returned(-1) else Running
    }

    /** One wait for the FIN: 1 if it came, 0 to go on, -1 after the deadline or an error. */
    method AwaitFin(t: Turn, ghost r: R.Receiver) returns (result: int)
      requires connected && Receives(r) && r.phase.AwaitingFin?
      modifies this
      ensures connected && Replied(R.AwaitingFinTurn(Wire, r, t), old(sent))
      ensures R.AwaitingFinTurn(Wire, r, t).r.phase
           == if result == 1 then R.Lingering else if result == 0 then R.AwaitingFin else R.Failed
      ensures result in {-1, 0, 1}
    {
      if t.late {
        return -1;
      }
      var wait, hit := WaitFor(RTP_FIN, t.arrivals, t.fault);
      if wait == 0 {
        if hit.value.number == Seq64To32(seqNum) {
          SendPacket(Header(Seq64To32(seqNum), RTP_FIN_ACK));
          return 1;
        }
        return 0;
      }
      return if wait == -1 then -1 else 0;
    }

    /** One wait of the two seconds after the FIN&ACK: the code to return, if any. */
    method AnswerFin(t: Turn, ghost r: R.Receiver) returns (result: Option<int>)
      requires connected && Receives(r) && r.phase.Lingering?
      modifies this
      ensures Replied(R.LingeringTurn(Wire, r, t), old(sent))
      ensures R.LingeringTurn(Wire, r, t).r.phase
           == if result.None? then R.Lingering else if result.value == 0 then R.Done else R.Failed
      ensures result.Some? ==> result.value == 0 || result.value == -1
      ensures result.None? ==> connected
    {
      if t.late {
        connected := false;
        return Some(0);
      }
      var wait, hit := WaitFor(RTP_FIN, t.arrivals, t.fault);
      if wait == 0 {
        if hit.value.number == Seq64To32(seqNum) {
          SendPacket(Header(Seq64To32(seqNum), RTP_FIN_ACK));
        }
      } else if wait == -1 {
        return Some(-1);
      }
      return None;
    }

    /** The two seconds after the FIN&ACK, from turn `from` on. */
    method Linger(turns: seq<Turn>, from: nat, ghost start: R.Receiver, ghost before: seq<Packet>)
      returns (outcome: Outcome, used: nat)
      requires connected && ReceiverRan(start, before, turns, from)
      requires R.Run(Wire, start, turns[..from]).r.phase.Lingering?
      modifies this
      ensures ReceiverRan(start, before, turns, used)
      ensures outcome == WaitCloseOutcome(R.Run(Wire, start, turns[..used]).r.phase)
      ensures outcome.Running? ==> used == |turns|
    {
      used := from;
      var result: Option<int> := None;
      while result.None? && used < |turns|
        invariant ReceiverRan(start, before, turns, used) && (result.None? ==> connected)
        invariant R.Run(Wire, start, turns[..used]).r.phase
               == if result.None? then R.Lingering else if result.value == 0 then R.Done else R.Failed
        invariant result.Some? ==> result.value == 0 || result.value == -1
      {
        ghost var y := R.Run(Wire, start, turns[..used]).r;
        result := AnswerFin(turns[used], y);
        ghost var k, m := ReceiverRunStep(start, turns, used, before);
        LingeringIterates(y, turns[used]);
        used := used + 1;
      }
      return if result.None? then Running else Returned(result.value), used;
    }

    /** The five seconds in which the FIN may come: the result of the last wait. */
    method AwaitAnyFin(turns: seq<Turn>, ghost start: R.Receiver, ghost before: seq<Packet>)
      returns (result: int, used: nat)
      requires connected && ReceiverRan(start, before, turns, 0)
      requires R.Run(Wire, start, turns[..0]).r.phase.AwaitingFin?
      modifies this
      ensures connected && ReceiverRan(start, before, turns, used)
      ensures R.Run(Wire, start, turns[..used]).r.phase
           == if result == 1 then R.Lingering else if result == 0 then R.AwaitingFin else R.Failed
      ensures result in {-1, 0, 1} && (result == 0 ==> used == |turns|)
    {
      result, used := 0, 0;
      while result == 0 && used < |turns|
        invariant connected && ReceiverRan(start, before, turns, used)
        invariant R.Run(Wire, start, turns[..used]).r.phase
               == if result == 1 then R.Lingering else if result == 0 then R.AwaitingFin else R.Failed
        invariant result in {-1, 0, 1}
      {
        ghost var y := R.Run(Wire, start, turns[..used]).r;
        result := AwaitFin(turns[used], y);
        ghost var k, m := ReceiverRunStep(start, turns, used, before);
        AwaitingFinIterates(y, turns[used]);
        used := used + 1;
      }
    }

    method WaitClose(turns: seq<Turn>, ghost r: R.Receiver) returns (outcome: Outcome, used: nat)
      requires connected && Receives(r)
      modifies this
      ensures ReceiverRan(R.StartWaitClose(Wire, r).r, old(sent) + R.StartWaitClose(Wire, r).out, turns, used)
      ensures outcome == WaitCloseOutcome(R.Run(Wire, R.StartWaitClose(Wire, r).r, turns[..used]).r.phase)
      ensures outcome.Running? ==> used == |turns|
    {
      seqNum := seqNum + 1;
      used := 0;
      assert turns[..0] == [];
      if finReceived {
        SendPacket(Header(Seq64To32(seqNum), RTP_FIN_ACK));
        return Returned(0), used;
      }
      ghost var start, before := R.StartWaitClose(Wire, r).r, sent;
      var result;
      result, used := AwaitAnyFin(turns, start, before);
      if result != 1 {
        return if result == 0 then Running else Returned(-1), used;
      }
      outcome, used := Linger(turns, used, start, before);
    }
  }
}
