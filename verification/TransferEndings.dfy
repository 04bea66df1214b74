/** How a transfer ends: what the last turns of both programs depend on, and ways to a closed sender. */
module TransferEndings {
  import opened SequenceNumbers
  import opened Packets
  import opened Segmentation
  import opened TransferSystem
  import opened TransferInvariant
  import opened TransferProgress
  import opened TransferCompletion
  import S = SenderSide
  import R = ReceiverSide

  // ---------------------------------------------------------------- the end of recv_file

  /** Once the FIN has been seen the transfer is complete, and the receiver's next look at the clock decides: in time
      it writes the file and is done; late it fails, although nothing is missing. */
  lemma CompleteEndsExactly(c: Config, z: System, t: Turn)
    requires Valid(c) && Reachable(c, z) && z.r.phase.Receiving? && z.r.fin.Some?
    ensures StepReceiver(c, z, t).r.phase == if t.late then R.Failed else R.Done
    ensures StepReceiver(c, z, t).written == if t.late then None else Some(Carried(c.file))
  {
    ReachableInv(c, z);
    if !t.late {
      FinishShape(c, z, t);
      PackedIsKeyed(c);
      FullMapIsFile(c, z);
    }
  }

  /** A state in which the receiver has everything and has seen the FIN, and still fails if its next turn is late. */
  ghost predicate CompleteButFailing(c: Config, z: System) {
    && z.r.phase.Receiving? && z.r.fin.Some? && z.r.recvBase >= z.r.fin.value && Expected(c, z) == End(c)
    && StepReceiver(c, z, LATE).r.phase.Failed? && StepReceiver(c, z, LATE).written.None?
  }

  lemma FinLatched(c: Config, z: System) returns (labels: seq<Label>)
    requires Valid(c) && Inv(c, z) && z.s.phase.Closing? && z.r.phase.Receiving?
    ensures Allowed(c, z, labels)
    ensures var y := Exec(c, z, labels);
            Inv(c, y) && y.s.phase.Closing? && y.r.phase.Receiving? && y.r.fin.Some?
  {
    labels := [];
    if z.r.fin.None? {
      var fin := Header(Encode(c.nb, End(c)), RTP_FIN);
      QuietClose(c, z);
      FinArrives(c, StepSender(c, z, QUIET), fin);
      ExecOne(c, z, SenderTurn(QUIET));
      ExecThen(c, z, [SenderTurn(QUIET)], ReceiverTurn(Arrival(fin)));
      labels := [SenderTurn(QUIET)] + [ReceiverTurn(Arrival(fin))];
    }
  }

  lemma LatchedFails(c: Config, z: System)
    requires Inv(c, z) && z.r.phase.Receiving? && z.r.fin.Some?
    ensures CompleteButFailing(c, z)
  {
    LateShape(c, z, LATE);
  }

  /** A run to a state in which the sender is in close, and the receiver has everything and has seen the FIN. */
  lemma LatchedRun(c: Config) returns (labels: seq<Label>)
    requires Valid(c) && Completable(c)
    ensures Allowed(c, Init(c), labels)
    ensures var y := Exec(c, Init(c), labels);
            Inv(c, y) && y.s.phase.Closing? && y.r.phase.Receiving? && y.r.fin.Some?
  {
    labels := HandshakeRun(c);
    if Exec(c, Init(c), labels).s.phase.Sending? {
      var rest := SendingEnds(c, Exec(c, Init(c), labels));
      ExecAppend(c, Init(c), labels, rest);
      labels := labels + rest;
    }
    var last := FinLatched(c, Exec(c, Init(c), labels));
    ExecAppend(c, Init(c), labels, last);
    labels := labels + last;
  }

  /** Every transfer that can be completed can come to such a state. */
  lemma CompleteCanFail(c: Config) returns (labels: seq<Label>)
    requires Valid(c) && Completable(c)
    ensures Allowed(c, Init(c), labels) && CompleteButFailing(c, Exec(c, Init(c), labels))
  {
    labels := LatchedRun(c);
    LatchedFails(c, Exec(c, Init(c), labels));
  }

  // ---------------------------------------------------------------- what has been sent, by phase

  function Syn(c: Config): Packet { Header(c.x, RTP_SYN) }

  function SynAck(c: Config): Packet { Header(Encode(c.nb, c.x + 1), RTP_SYN_ACK) }

  function Ack(c: Config): Packet { Header(Encode(c.nb, c.x + 1), RTP_ACK) }

  function Fin(c: Config): Packet { Header(Encode(c.nb, End(c)), RTP_FIN) }

  function FinAck(c: Config): Packet { Header(Encode(c.nb, End(c)), RTP_FIN_ACK) }

  predicate PastHandshake(phase: S.Phase) {
    phase.Settling? || phase.Sending? || phase.Closing? || phase.Closed?
  }

  predicate Ended(phase: S.Phase) {
    phase.Closing? || phase.Closed? || phase.Failed?
  }

  /** What each side has sent, told by the phases. */
  ghost predicate SenderFlow(c: Config, s: S.Sender, toR: set<Packet>, toS: set<Packet>) {
    && (!s.phase.Failed? ==> Syn(c) in toR)
    && (PastHandshake(s.phase) ==> Ack(c) in toR)
    && (s.phase.Connecting? ==> Ack(c) !in toR)
    && (Fin(c) in toR ==> Ended(s.phase))
    && (s.phase.Closed? ==> FinAck(c) in toS)
  }

  ghost predicate ReceiverFlow(c: Config, r: R.Receiver, toR: set<Packet>, toS: set<Packet>) {
    && (r.phase.Receiving? || r.phase.Done? ==> Ack(c) in toR)
    && (r.fin.Some? ==> Fin(c) in toR)
    && (r.phase.Done? ==> r.fin.Some?)
    && (FinAck(c) in toS <==> r.phase.Done?)
  }

  ghost predicate Flow(c: Config, z: System) {
    SenderFlow(c, z.s, z.toR, z.toS) && ReceiverFlow(c, z.r, z.toR, z.toS)
  }

  // ---------------------------------------------------------------- sender turns

  lemma ConnectingOut(c: Config, z: System, t: Turn)
    requires InRange(c) && Inv(c, z) && z.s.phase.Connecting?
    ensures var m := S.ConnectingTurn(c.nb, z.s, t);
            || (m.s.phase.Settling? && m.out == [Ack(c)])
            || ((m.s.phase.Connecting? || m.s.phase.Failed?) && (m.out == [] || m.out == [Syn(c)]))
  {
    Numbers(c);
  }

  lemma SettlingOut(c: Config, z: System, t: Turn)
    requires InRange(c) && Inv(c, z) && z.s.phase.Settling? && !t.late
    ensures var m := S.SettlingTurn(c.nb, z.s, t);
            (m.s.phase.Settling? || m.s.phase.Failed?) && (m.out == [] || m.out == [Ack(c)])
  {
    Numbers(c);
  }

  lemma ClosingOut(c: Config, z: System, t: Turn)
    requires Inv(c, z) && z.s.phase.Closing? && Enabled(z, SenderTurn(t))
    ensures var m := S.ClosingTurn(c.nb, z.s, t);
            && (m.s.phase.Closing? || m.s.phase.Closed? || m.s.phase.Failed?) && (m.out == [] || m.out == [Fin(c)])
            && (m.s.phase.Closed? ==> FinAck(c) in z.toS)
  {
    var r := ReadUntil(c.nb, z.s.seqBase, true, z.s.fin, RTP_FIN_ACK, t.arrivals);
    if r.hit.Some? {
      assert ToSender(c, z, r.hit.value);
    }
  }

  /** What a turn that hands `out` to the socket does to the sender's part, told by the phases and the kinds sent. */
  lemma SenderFlowAfter(c: Config, z: System, s: S.Sender, out: seq<Packet>)
    requires Flow(c, z)
    requires PastHandshake(s.phase) ==> PastHandshake(z.s.phase) || Ack(c) in out
    requires s.phase.Connecting? ==> z.s.phase.Connecting? && Ack(c) !in out
    requires (Fin(c) in out ==> Ended(s.phase)) && (Ended(z.s.phase) ==> Ended(s.phase))
    requires s.phase.Closed? ==> FinAck(c) in z.toS
    requires z.s.phase.Failed? ==> s.phase.Failed?
    ensures SenderFlow(c, s, z.toR + Sending(out), z.toS)
    ensures ReceiverFlow(c, z.r, z.toR + Sending(out), z.toS)
  {
  }

  lemma IterateFlow(c: Config, z: System, t: Turn)
    requires Valid(c) && Inv(c, z) && Flow(c, z) && Enabled(z, SenderTurn(t))
    requires z.s.phase.Connecting? || z.s.phase.Closing? || (z.s.phase.Settling? && !t.late)
    ensures Flow(c, StepSender(c, z, t))
  {
    var m := S.Iterate(c.nb, z.s, t);
    if z.s.phase.Connecting? {
      ConnectingOut(c, z, t);
    } else if z.s.phase.Settling? {
      SettlingOut(c, z, t);
    } else {
      ClosingOut(c, z, t);
    }
    SenderFlowAfter(c, z, m.s, m.out);
    StepSenderIs(c, z, t, m, m);
  }

  lemma StartSendFlow(c: Config, z: System, t: Turn)
    requires Valid(c) && Inv(c, z) && Flow(c, z) && z.s.phase.Settling? && t.late
    ensures Flow(c, StepSender(c, z, t))
  {
    if c.total == 0 {
      StartSendNothingShape(c, z, t);
      SenderFlowAfter(c, z, StepSender(c, z, t).s, [Fin(c)]);
      assert Sending([Fin(c)]) == {Fin(c)};
    } else {
      StartSendShape(c, z, t);
      SenderFlowAfter(c, z, StepSender(c, z, t).s, []);
      assert z.toR + Sending([]) == z.toR;
    }
  }

  lemma DataIsNeither(c: Config, out: seq<Packet>, below: int)
    requires AllData(c, out, below)
    ensures Ack(c) !in out && Fin(c) !in out
  {
  }

  lemma SendingFlow(c: Config, z: System, t: Turn)
    requires Valid(c) && Inv(c, z) && Flow(c, z) && z.s.phase.Sending? && Enabled(z, SenderTurn(t))
    ensures Flow(c, StepSender(c, z, t))
  {
    PackedIsKeyed(c);
    var m := S.SendingTurn(c.nb, z.s, t);
    if t.late {
      SenderFlowAfter(c, z, m.s, m.out);
      StepSenderIs(c, z, t, m, m);
    } else {
      SendingTurnShape(c, z, t, m);
      SendingStepShape(c, z, t, m);
      DataIsNeither(c, m.out, m.s.next);
      var y := StepSender(c, z, t);
      SenderFlowAfter(c, z, y.s, if m.s.phase.Sending? then m.out else m.out + [Fin(c)]);
    }
  }

  lemma SenderTurnFlow(c: Config, z: System, t: Turn)
    requires Valid(c) && Inv(c, z) && Flow(c, z) && Enabled(z, SenderTurn(t))
    ensures Flow(c, StepSender(c, z, t))
  {
    if z.s.phase.Sending? {
      SendingFlow(c, z, t);
    } else if z.s.phase.Settling? && t.late {
      StartSendFlow(c, z, t);
    } else if z.s.phase.Closed? || z.s.phase.Failed? {
      StepSenderIs(c, z, t, S.Move(z.s, []), S.Move(z.s, []));
    } else {
      IterateFlow(c, z, t);
    }
  }

  // ---------------------------------------------------------------- receiver turns

  /** A FIN that the receiver latches had been sent. */
  lemma LatchedWasSent(c: Config, z: System, flags: int, arrivals: seq<Packet>)
    requires Inv(c, z) && Flow(c, z) && Synced(z) && forall p :: p in arrivals ==> p in z.toR
    ensures ReadUntil(c.nb, z.r.seqBase, z.r.connected, z.r.fin, flags, arrivals).fin.Some? ==> Fin(c) in z.toR
  {
    ReadUntilLatches(c.nb, z.r.seqBase, z.r.connected, z.r.fin, flags, arrivals);
    forall p | p in arrivals && p.flags == RTP_FIN ensures p == Fin(c) {
      assert ToReceiver(c, z, p);
    }
  }

  lemma HandshakeAckWasSent(c: Config, z: System, arrivals: seq<Packet>)
    requires Inv(c, z) && forall p :: p in arrivals ==> p in z.toR
    ensures FirstOf(RTP_ACK, arrivals).Some? ==> Ack(c) in z.toR
  {
    var hit := FirstOf(RTP_ACK, arrivals);
    if hit.Some? {
      assert ToReceiver(c, z, hit.value);
    }
  }

  lemma ReceiverFlowAfter(c: Config, z: System, r: R.Receiver, out: seq<Packet>)
    requires Flow(c, z)
    requires r.phase.Receiving? || r.phase.Done? ==> z.r.phase.Receiving? || z.r.phase.Done? || Ack(c) in z.toR
    requires r.fin.Some? ==> Fin(c) in z.toR
    requires r.phase.Done? ==> r.fin.Some? && (z.r.phase.Done? || FinAck(c) in out)
    requires z.r.phase.Done? || FinAck(c) in out ==> r.phase.Done?
    ensures ReceiverFlow(c, r, z.toR, z.toS + Sending(out))
    ensures SenderFlow(c, z.s, z.toR, z.toS + Sending(out))
  {
  }

  lemma ListeningFlow(c: Config, z: System, t: Turn)
    requires InRange(c) && Inv(c, z) && Flow(c, z) && z.r.phase.Listening? && Enabled(z, ReceiverTurn(t))
    ensures Flow(c, StepReceiver(c, z, t))
  {
    SynShape(c, z, t);
    var m := R.Iterate(c.nb, z.r, t);
    ReceiverFlowAfter(c, z, m.r, m.out);
  }

  lemma AcceptingFlow(c: Config, z: System, t: Turn)
    requires InRange(c) && Inv(c, z) && Flow(c, z) && z.r.phase.Accepting? && Enabled(z, ReceiverTurn(t))
    ensures Flow(c, StepReceiver(c, z, t))
  {
    HandshakeAckShape(c, z, t);
    LatchedWasSent(c, z, RTP_ACK, t.arrivals);
    HandshakeAckWasSent(c, z, t.arrivals);
    ReadUntilHit(c.nb, z.r.seqBase, z.r.connected, z.r.fin, RTP_ACK, t.arrivals);
    var m := ReceiverProgram(c, R.Iterate(c.nb, z.r, t));
    ReceiverFlowAfter(c, z, m.r, m.out);
  }

  lemma ReceivingFlow(c: Config, z: System, t: Turn)
    requires Valid(c) && Inv(c, z) && Flow(c, z) && z.r.phase.Receiving? && Enabled(z, ReceiverTurn(t))
    ensures Flow(c, StepReceiver(c, z, t))
  {
    if t.late {
      LateShape(c, z, t);
      ReceiverFlowAfter(c, z, z.r.(phase := R.Failed), []);
      assert z.toS + Sending([]) == z.toS;
    } else if z.r.fin.Some? && z.r.recvBase >= z.r.fin.value {
      FinishShape(c, z, t);
      ReceiverStepKeeps(c, z, t);
      FinishFlow(c, z, StepReceiver(c, z, t));
    } else {
      LatchedWasSent(c, z, RTP_DAT, t.arrivals);
      var q := ReadUntil(c.nb, z.r.seqBase, z.r.connected, z.r.fin, RTP_DAT, t.arrivals);
      ReadShape(c, z, t, q);
      var r := z.r.(fin := q.fin);
      if q.hit.Some? {
        var m := R.OnData(c.nb, r, q.hit.value);
        ReceiverFlowAfter(c, z, m.r, m.out);
      } else {
        ReceiverFlowAfter(c, z, r, []);
        assert z.toS + Sending([]) == z.toS;
      }
    }
  }

  lemma FinishFlow(c: Config, z: System, y: System)
    requires InRange(c) && Inv(c, z) && Flow(c, z) && Inv(c, y) && z.r.phase.Receiving? && z.r.fin.Some?
    requires var m := R.StartWaitClose(c.nb, R.EndReceive(z.r.(phase := R.Received)));
             y == z.(r := m.r, written := Some(InOrder(z.r.dataMap)), toS := z.toS + Sending(m.out))
    ensures Flow(c, y)
  {
    Numbers(c);
    ReceiverFlowAfter(c, z, y.r, [FinAck(c)]);
  }

  lemma ReceiverTurnFlow(c: Config, z: System, t: Turn)
    requires Valid(c) && Inv(c, z) && Flow(c, z) && Enabled(z, ReceiverTurn(t))
    ensures Flow(c, StepReceiver(c, z, t))
  {
    match z.r.phase
    case Listening => ListeningFlow(c, z, t);
    case Accepting(_) => AcceptingFlow(c, z, t);
    case Receiving => ReceivingFlow(c, z, t);
    case _ => ReceiverFlowAfter(c, z, z.r, []);
  }

  // ---------------------------------------------------------------- runs

  lemma SenderStopFlow(c: Config, z: System, y: System, t: Turn, sends: nat)
    requires Flow(c, z) && SenderStops(c, z, y, t, sends)
    ensures Flow(c, y)
  {
    SenderStopsSends(c, z, y, t, sends);
  }

  /** A receiver that is done sends nothing any more. */
  lemma DoneIsSilent(c: Config, z: System, t: Turn)
    requires z.r.phase.Done?
    ensures ReceiverOut(c, z, t) == []
  {
  }

  lemma ReceiverStopFlow(c: Config, z: System, y: System, t: Turn, sends: nat, saved: bool)
    requires Valid(c) && Inv(c, z) && Flow(c, z) && ReceiverStops(c, z, y, t, sends, saved)
    ensures Flow(c, y)
  {
    ReceiverTurnFlow(c, z, t);
    OneReply(c, z, t);
    assert z.toS + Sending(ReceiverOut(c, z, t)[..sends]) == z.toS;
    if z.r.phase.Done? {
      DoneIsSilent(c, z, t);
      assert false;
    }
  }

  lemma EventFlow(c: Config, z: System, e: Event, y: System)
    requires Valid(c) && Inv(c, z) && Flow(c, z) && Happens(c, z, e, y)
    ensures Flow(c, y)
  {
    match e
    case Turning(SenderTurn(t)) => SenderTurnFlow(c, z, t);
    case Turning(ReceiverTurn(t)) => ReceiverTurnFlow(c, z, t);
    case SenderStopping(t, sends) => SenderStopFlow(c, z, y, t, sends);
    case ReceiverStopping(t, sends, saved) => ReceiverStopFlow(c, z, y, t, sends, saved);
  }

  lemma FollowsFlow(c: Config, z: System, y: System)
    requires Valid(c) && Inv(c, z) && Flow(c, z) && Follows(c, z, y)
    ensures Flow(c, y)
  {
    var e :| Happens(c, z, e, y);
    EventFlow(c, z, e, y);
  }

  lemma StartFlow(c: Config, z: System)
    requires Starts(c, z)
    ensures Flow(c, z)
  {
    assert [Syn(c)][0] in Sending([Syn(c)]);
  }

  lemma {:induction false} BehaviourFlow(c: Config, states: seq<System>, i: nat)
    requires Valid(c) && Behaviour(c, states) && i < |states|
    ensures Flow(c, states[i])
    decreases i
  {
    if i == 0 {
      StartFlow(c, states[0]);
    } else {
      BehaviourFlow(c, states, i - 1);
      BehaviourInv(c, states, i - 1);
      assert FollowsAt(c, states, i - 1);
      FollowsFlow(c, states[i - 1], states[i]);
    }
  }

  /** In every reachable state, the phases tell what has been sent. */
  lemma ReachableFlow(c: Config, z: System)
    requires Valid(c) && Reachable(c, z)
    ensures Flow(c, z)
  {
    var states :| Behaviour(c, states) && z == states[|states| - 1];
    BehaviourFlow(c, states, |states| - 1);
  }

  // ---------------------------------------------------------------- ways to a closed sender

  lemma QuietReply(c: Config, z: System)
    requires Valid(c) && Inv(c, z) && z.r.phase.Accepting?
    ensures var y := StepReceiver(c, z, QUIET);
            Inv(c, y) && y.s == z.s && y.r.phase.Accepting? && SynAck(c) in y.toS
  {
    ReceiverStepKeeps(c, z, QUIET);
    var out := [SynAck(c)];
    assert out[0] in Sending(out);
    assert R.Iterate(c.nb, z.r, QUIET) == R.Move(z.r, out);
  }

  /** With the receiver in its loop. */
  lemma EndsFromReceiving(c: Config, z: System) returns (labels: seq<Label>)
    requires Valid(c) && Completable(c) && Inv(c, z) && z.r.phase.Receiving?
    requires z.s.phase.Settling? || z.s.phase.Sending? || z.s.phase.Closing?
    ensures Allowed(c, z, labels) && Exec(c, z, labels).s.phase.Closed?
  {
    if z.s.phase.Sending? {
      labels := CanFinish(c, z);
    } else if z.s.phase.Closing? {
      labels := ClosingEnds(c, z);
    } else {
      SettlingEnds(c, z);
      ExecOne(c, z, SenderTurn(LATE));
      var y := StepSender(c, z, LATE);
      var rest;
      if y.s.phase.Sending? {
        rest := CanFinish(c, y);
      } else {
        rest := ClosingEnds(c, y);
      }
      ExecAppend(c, z, [SenderTurn(LATE)], rest);
      labels := [SenderTurn(LATE)] + rest;
    }
  }

  /** With the receiver still waiting for the handshake ACK, which is in the channel. */
  lemma EndsFromAccepting(c: Config, z: System) returns (labels: seq<Label>)
    requires Valid(c) && Completable(c) && Inv(c, z) && z.r.phase.Accepting? && Ack(c) in z.toR
    requires z.s.phase.Settling? || z.s.phase.Sending? || z.s.phase.Closing?
    ensures Allowed(c, z, labels) && Exec(c, z, labels).s.phase.Closed?
  {
    HandshakeAckArrives(c, z, Ack(c));
    var l := ReceiverTurn(Arrival(Ack(c)));
    ExecOne(c, z, l);
    var rest := EndsFromReceiving(c, Step(c, z, l));
    ExecAppend(c, z, [l], rest);
    labels := [l] + rest;
  }

  lemma EndsAfterSynAck(c: Config, z: System) returns (labels: seq<Label>)
    requires Valid(c) && Completable(c) && Inv(c, z) && z.s.phase.Connecting? && z.r.phase.Accepting?
    requires SynAck(c) in z.toS
    ensures Allowed(c, z, labels) && Exec(c, z, labels).s.phase.Closed?
  {
    SynAckArrives(c, z, SynAck(c));
    var l := SenderTurn(Arrival(SynAck(c)));
    ExecOne(c, z, l);
    var rest := EndsFromAccepting(c, Step(c, z, l));
    ExecAppend(c, z, [l], rest);
    labels := [l] + rest;
  }

  /** A receiver that waits for the handshake ACK repeats its SYN&ACK. */
  lemma EndsFromConnecting(c: Config, z: System) returns (labels: seq<Label>)
    requires Valid(c) && Completable(c) && Inv(c, z) && z.s.phase.Connecting? && z.r.phase.Accepting?
    ensures Allowed(c, z, labels) && Exec(c, z, labels).s.phase.Closed?
  {
    QuietReply(c, z);
    var l := ReceiverTurn(QUIET);
    ExecOne(c, z, l);
    var rest := EndsAfterSynAck(c, Step(c, z, l));
    ExecAppend(c, z, [l], rest);
    labels := [l] + rest;
  }

  lemma EndsFromSyn(c: Config, z: System) returns (labels: seq<Label>)
    requires Valid(c) && Completable(c) && Inv(c, z) && z.s.phase.Connecting? && z.r.phase.Listening?
    requires Syn(c) in z.toR
    ensures Allowed(c, z, labels) && Exec(c, z, labels).s.phase.Closed?
  {
    SynArrives(c, z, Syn(c));
    var l := ReceiverTurn(Arrival(Syn(c)));
    ExecOne(c, z, l);
    var rest := EndsAfterSynAck(c, Step(c, z, l));
    ExecAppend(c, z, [l], rest);
    labels := [l] + rest;
  }

  /** A sender that has a retry left repeats its SYN and waits on. */
  lemma QuietSyn(c: Config, z: System)
    requires Valid(c) && Inv(c, z) && z.s.phase.Connecting? && z.s.retry < S.MAX_RETRY
    ensures var y := StepSender(c, z, QUIET);
            Inv(c, y) && y.r == z.r && y.s.phase.Connecting? && Syn(c) in y.toR
  {
    SenderStepKeeps(c, z, QUIET);
    var out := [Syn(c)];
    assert out[0] in Sending(out);
    var s := z.s.(retry := z.s.retry + 1);
    assert S.Iterate(c.nb, z.s, QUIET) == S.Move(s, out);
    StepSenderIs(c, z, QUIET, S.Move(s, out), S.Move(s, out));
  }

  lemma EndsFromRetry(c: Config, z: System) returns (labels: seq<Label>)
    requires Valid(c) && Completable(c) && Inv(c, z) && z.s.phase.Connecting? && z.r.phase.Listening?
    requires z.s.retry < S.MAX_RETRY
    ensures Allowed(c, z, labels) && Exec(c, z, labels).s.phase.Closed?
  {
    QuietSyn(c, z);
    var l := SenderTurn(QUIET);
    ExecOne(c, z, l);
    var rest := EndsFromSyn(c, Step(c, z, l));
    ExecAppend(c, z, [l], rest);
    labels := [l] + rest;
  }

  /** In the two seconds after the handshake ACK, the sender answers a repeated SYN&ACK with that ACK again. */
  lemma AckRepeated(c: Config, z: System)
    requires Valid(c) && Inv(c, z) && z.s.phase.Settling? && SynAck(c) in z.toS
    ensures var y := StepSender(c, z, Arrival(SynAck(c)));
            Inv(c, y) && y.r == z.r && y.s.phase.Settling? && Ack(c) in y.toR
  {
    SenderStepKeeps(c, z, Arrival(SynAck(c)));
    ReadUntilHit(c.nb, z.s.seqBase, true, z.s.fin, RTP_SYN_ACK, Arrival(SynAck(c)).arrivals);
    ArrivalIsFirst(SynAck(c));
    Numbers(c);
    var out := [Ack(c)];
    assert out[0] in Sending(out);
  }

  lemma EndsFromSettling(c: Config, z: System) returns (labels: seq<Label>)
    requires Valid(c) && Completable(c) && Inv(c, z) && z.s.phase.Settling? && z.r.phase.Accepting?
    ensures Allowed(c, z, labels) && Exec(c, z, labels).s.phase.Closed?
  {
    QuietReply(c, z);
    var y := StepReceiver(c, z, QUIET);
    AckRepeated(c, y);
    var first, second := ReceiverTurn(QUIET), SenderTurn(Arrival(SynAck(c)));
    ExecOne(c, z, first);
    ExecThen(c, z, [first], second);
    var rest := EndsFromAccepting(c, StepSender(c, y, second.turn));
    ExecAppend(c, z, [first] + [second], rest);
    labels := [first] + [second] + rest;
  }

  lemma EndsFromDone(c: Config, z: System) returns (labels: seq<Label>)
    requires Valid(c) && Inv(c, z) && z.s.phase.Closing? && FinAck(c) in z.toS
    ensures Allowed(c, z, labels) && Exec(c, z, labels).s.phase.Closed?
  {
    FinAckArrives(c, z, FinAck(c));
    labels := [SenderTurn(Arrival(FinAck(c)))];
    ExecOne(c, z, labels[0]);
  }

  lemma ClosedIsWhole(c: Config, z: System)
    requires Valid(c) && Reachable(c, z) && z.s.phase.Closed?
    ensures Completable(c) && z.r.phase.Done?
  {
    ReachableInv(c, z);
    ReachableFlow(c, z);
  }
}
