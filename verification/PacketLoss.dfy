/** Packets that are lost for good: what can still be reached without them, and what cannot. */
module PacketLoss {
  import opened Packets
  import opened Segmentation
  import opened TransferSystem
  import opened TransferInvariant
  import opened TransferProgress
  import opened TransferCompletion
  import opened TransferEndings
  import S = SenderSide
  import R = ReceiverSide

  // ---------------------------------------------------------------- packets lost for good

  /** `y` is `z` after some of what is in the channels, or all of it, has been lost for good. */
  ghost predicate Losing(z: System, y: System) {
    y.s == z.s && y.r == z.r && y.written == z.written && y.toR <= z.toR && y.toS <= z.toS
  }

  ghost predicate LossyAt(c: Config, states: seq<System>, i: nat)
    requires i + 1 < |states|
  {
    Losing(states[i], states[i + 1]) || Follows(c, states[i], states[i + 1])
  }

  /** A run in which packets may be lost for good at any time. */
  ghost predicate LossyBehaviour(c: Config, states: seq<System>) {
    && |states| > 0 && Starts(c, states[0])
    && forall i :: 0 <= i < |states| - 1 ==> LossyAt(c, states, i)
  }

  ghost predicate LossyReachable(c: Config, y: System) {
    exists states :: LossyBehaviour(c, states) && y == states[|states| - 1]
  }

  lemma LosingSender(z: System, y: System, out: seq<Packet>, s: S.Sender)
    requires Losing(z, y)
    ensures Losing(z.(s := s, toR := z.toR + Sending(out)), y.(s := s, toR := y.toR + Sending(out)))
  {
  }

  lemma LosingReceiver(z: System, y: System, out: seq<Packet>, r: R.Receiver, written: Option<Bytes>)
    requires Losing(z, y)
    ensures Losing(z.(r := r, written := written, toS := z.toS + Sending(out)),
                   y.(r := r, written := written, toS := y.toS + Sending(out)))
  {
  }

  /** Whatever can happen after a loss could have happened without it. */
  lemma LosingHappens(c: Config, z: System, y: System, e: Event, after: System) returns (w: System)
    requires Losing(z, y) && Happens(c, y, e, after)
    ensures Happens(c, z, e, w) && Losing(w, after)
  {
    match e
    case Turning(SenderTurn(t)) =>
      w := StepSender(c, z, t);
      LosingSender(z, y, SenderOut(c, z, t), w.s);
    case Turning(ReceiverTurn(t)) =>
      w := StepReceiver(c, z, t);
      LosingReceiver(z, y, ReceiverOut(c, z, t), w.r, w.written);
    case SenderStopping(t, sends) =>
      w := z.(s := after.s, toR := z.toR + Sending(SenderOut(c, z, t)[..sends]));
      LosingSender(z, y, SenderOut(c, z, t)[..sends], after.s);
    case ReceiverStopping(t, sends, saved) =>
      w := z.(r := after.r, written := after.written, toS := z.toS + Sending(ReceiverOut(c, z, t)[..sends]));
      LosingReceiver(z, y, ReceiverOut(c, z, t)[..sends], after.r, after.written);
  }

  lemma LosingFollows(c: Config, z: System, y: System, after: System) returns (w: System)
    requires Losing(z, y) && Follows(c, y, after)
    ensures Follows(c, z, w) && Losing(w, after)
  {
    var e :| Happens(c, y, e, after);
    w := LosingHappens(c, z, y, e, after);
  }

  /** A run with losses is shadowed by one that loses nothing. */
  lemma {:induction false} Shadow(c: Config, states: seq<System>, i: nat) returns (z: System)
    requires LossyBehaviour(c, states) && i < |states|
    ensures Reachable(c, z) && Losing(z, states[i])
    decreases i
  {
    if i == 0 {
      z := states[0];
      assert Behaviour(c, [z]);
    } else {
      z := Shadow(c, states, i - 1);
      assert LossyAt(c, states, i - 1);
      if !Losing(states[i - 1], states[i]) {
        var before := z;
        z := LosingFollows(c, before, states[i - 1], states[i]);
        ReachableFollows(c, before, z);
      }
    }
  }

  lemma LossLast(c: Config, states: seq<System>, more: seq<System>, y: System)
    requires Behaviour(c, states) && Losing(states[|states| - 1], y) && more == states + [y]
    ensures LossyBehaviour(c, more)
  {
    forall i | 0 <= i < |more| - 1 ensures LossyAt(c, more, i) {
      if i < |states| - 1 {
        assert FollowsAt(c, states, i);
      }
    }
  }

  /** Losing packets on the way leads to no more than losing them all at the end. */
  lemma LossyExactly(c: Config, y: System)
    ensures LossyReachable(c, y) <==> exists z :: Reachable(c, z) && Losing(z, y)
  {
    if LossyReachable(c, y) {
      var states :| LossyBehaviour(c, states) && y == states[|states| - 1];
      var z := Shadow(c, states, |states| - 1);
    } else if exists z :: Reachable(c, z) && Losing(z, y) {
      var z :| Reachable(c, z) && Losing(z, y);
      var states :| Behaviour(c, states) && z == states[|states| - 1];
      LossLast(c, states, states + [y], y);
    }
  }

  /** The two sides can still find to each other. What one of them goes on repeating may be lost; the last SYN, the
      handshake ACK once connect has returned, and the one FIN&ACK are not sent again and have to be there. */
  ghost predicate InReach(c: Config, z: System) {
    match z.s.phase
    case Connecting =>
      z.r.phase.Accepting? || (z.r.phase.Listening? && (z.s.retry < S.MAX_RETRY || Syn(c) in z.toR))
    case Settling => z.r.phase.Accepting? || z.r.phase.Receiving?
    case Sending => z.r.phase.Receiving? || (z.r.phase.Accepting? && Ack(c) in z.toR)
    case Closing =>
      z.r.phase.Receiving? || (z.r.phase.Accepting? && Ack(c) in z.toR) || (z.r.phase.Done? && FinAck(c) in z.toS)
    case Closed => true
    case _ => false
  }

  lemma LosingInv(c: Config, z: System, y: System)
    requires Inv(c, z) && Losing(z, y)
    ensures Inv(c, y)
  {
    forall p | p in y.toR ensures ToReceiver(c, y, p) {
      assert ToReceiver(c, z, p);
    }
    forall p | p in y.toS ensures ToSender(c, y, p) {
      assert ToSender(c, z, p);
    }
    assert y.r.phase.Receiving? ==> MapOk(c, y);
  }

  lemma EndsInReach(c: Config, z: System) returns (labels: seq<Label>)
    requires Valid(c) && Completable(c) && Inv(c, z) && InReach(c, z)
    ensures Allowed(c, z, labels) && Exec(c, z, labels).s.phase.Closed?
  {
    if z.s.phase.Closed? {
      labels := [];
    } else if z.r.phase.Receiving? {
      labels := EndsFromReceiving(c, z);
    } else if z.r.phase.Done? {
      labels := EndsFromDone(c, z);
    } else if z.s.phase.Settling? {
      labels := EndsFromSettling(c, z);
    } else if !z.s.phase.Connecting? {
      labels := EndsFromAccepting(c, z);
    } else if z.r.phase.Accepting? {
      labels := EndsFromConnecting(c, z);
    } else if Syn(c) in z.toR {
      labels := EndsFromSyn(c, z);
    } else {
      labels := EndsFromRetry(c, z);
    }
  }

  // ---------------------------------------------------------------- what can no longer be repaired

  /** The receiver has ended, and its FIN&ACK is lost or was never sent. */
  ghost predicate NoFinAck(c: Config, z: System) {
    (z.r.phase.Done? || z.r.phase.Failed?) && FinAck(c) !in z.toS && !z.s.phase.Closed?
  }

  /** The handshake ACK is lost, and the sender no longer answers a SYN&ACK. */
  ghost predicate NoHandshakeAck(c: Config, z: System) {
    z.r.phase.Accepting? && Ack(c) !in z.toR && (z.s.phase.Sending? || z.s.phase.Closing?)
  }

  /** The last SYN is lost. */
  ghost predicate NoSyn(c: Config, z: System) {
    z.s.phase.Connecting? && z.s.retry >= S.MAX_RETRY && !Synced(z) && Syn(c) !in z.toR
  }

  ghost predicate Hopeless(c: Config, z: System) {
    z.s.phase.Failed? || NoFinAck(c, z) || NoHandshakeAck(c, z) || NoSyn(c, z)
  }

  /** After losses, a reachable state is in reach or hopeless, and not both. */
  lemma ReachOrHopeless(c: Config, z: System, y: System)
    requires Inv(c, z) && Flow(c, z) && Losing(z, y)
    ensures InReach(c, y) <==> !Hopeless(c, y)
  {
  }

  lemma SynWasSent(c: Config, z: System, arrivals: seq<Packet>)
    requires Inv(c, z) && forall p :: p in arrivals ==> p in z.toR
    ensures FirstOf(RTP_SYN, arrivals).Some? ==> Syn(c) in z.toR
  {
    var hit := FirstOf(RTP_SYN, arrivals);
    if hit.Some? {
      assert ToReceiver(c, z, hit.value);
    }
  }

  lemma SynAckMeansSynced(c: Config, z: System, arrivals: seq<Packet>)
    requires Inv(c, z) && forall p :: p in arrivals ==> p in z.toS
    ensures FirstOf(RTP_SYN_ACK, arrivals).Some? ==> Synced(z)
  {
    var hit := FirstOf(RTP_SYN_ACK, arrivals);
    if hit.Some? {
      assert ToSender(c, z, hit.value);
    }
  }

  lemma FinAckMeansWritten(c: Config, z: System)
    requires Inv(c, z) && FinAck(c) in z.toS
    ensures z.written.Some?
  {
    assert ToSender(c, z, FinAck(c));
  }

  /** Without a SYN in the channel the receiver goes on listening, or fails. */
  lemma ListeningWaits(c: Config, z: System, t: Turn)
    requires Inv(c, z) && Enabled(z, ReceiverTurn(t)) && z.r.phase.Listening? && Syn(c) !in z.toR
    ensures !Synced(StepReceiver(c, z, t))
  {
    SynWasSent(c, z, t.arrivals);
    ReadUntilHit(c.nb, z.r.seqBase, z.r.connected, z.r.fin, RTP_SYN, t.arrivals);
  }

  /** The last turn of a sender that has used up its retries, and gets no SYN&ACK. */
  lemma LastRetryFails(c: Config, z: System, t: Turn)
    requires Inv(c, z) && Enabled(z, SenderTurn(t)) && NoSyn(c, z)
    ensures StepSender(c, z, t).s.phase.Failed?
  {
    SynAckMeansSynced(c, z, t.arrivals);
    ReadUntilHit(c.nb, z.s.seqBase, true, z.s.fin, RTP_SYN_ACK, t.arrivals);
  }

  lemma NoSynStays(c: Config, z: System, l: Label)
    requires Inv(c, z) && Enabled(z, l) && NoSyn(c, z)
    ensures Hopeless(c, Step(c, z, l))
  {
    match l
    case SenderTurn(t) => LastRetryFails(c, z, t);
    case ReceiverTurn(t) =>
      if z.r.phase.Listening? {
        ListeningWaits(c, z, t);
      }
  }

  /** Only the FIN&ACK closes the sender. */
  lemma OnlyFinAckCloses(c: Config, z: System, t: Turn)
    requires Valid(c) && Inv(c, z) && Enabled(z, SenderTurn(t)) && !z.s.phase.Closed?
    ensures StepSender(c, z, t).s.phase.Closed? ==> FinAck(c) in z.toS
  {
    if z.s.phase.Closing? {
      ClosingOut(c, z, t);
    } else if z.s.phase.Sending? && !t.late {
      PackedIsKeyed(c);
      SendingTurnShape(c, z, t, S.SendingTurn(c.nb, z.s, t));
      SendingStepShape(c, z, t, S.SendingTurn(c.nb, z.s, t));
    }
  }

  lemma NoFinAckStays(c: Config, z: System, l: Label)
    requires Valid(c) && Inv(c, z) && Enabled(z, l) && NoFinAck(c, z)
    ensures NoFinAck(c, Step(c, z, l))
  {
    match l
    case SenderTurn(t) => OnlyFinAckCloses(c, z, t);
    case ReceiverTurn(t) => assert StepReceiver(c, z, t).toS == z.toS;
  }

  /** The receiver goes on waiting for the handshake ACK, or fails. */
  lemma AcceptingWaits(c: Config, z: System, t: Turn)
    requires Valid(c) && Inv(c, z) && Enabled(z, ReceiverTurn(t)) && z.r.phase.Accepting? && Ack(c) !in z.toR
    ensures var y := StepReceiver(c, z, t);
            (y.r.phase.Accepting? || y.r.phase.Failed?) && FinAck(c) !in y.toS
  {
    HandshakeAckShape(c, z, t);
    HandshakeAckWasSent(c, z, t.arrivals);
    ReadUntilHit(c.nb, z.r.seqBase, z.r.connected, z.r.fin, RTP_ACK, t.arrivals);
    if FinAck(c) in z.toS {
      FinAckMeansWritten(c, z);
    }
  }

  /** Past connect, the sender sends data and FINs only. */
  lemma NoMoreAcks(c: Config, z: System, t: Turn)
    requires Valid(c) && Inv(c, z) && Enabled(z, SenderTurn(t)) && (z.s.phase.Sending? || z.s.phase.Closing?)
    ensures var y := StepSender(c, z, t);
            && (Ack(c) in y.toR ==> Ack(c) in z.toR)
            && (y.s.phase.Sending? || y.s.phase.Closing? || y.s.phase.Closed? || y.s.phase.Failed?)
  {
    PackedIsKeyed(c);
    var m := S.Iterate(c.nb, z.s, t);
    if z.s.phase.Closing? {
      ClosingOut(c, z, t);
    } else if !t.late {
      SendingTurnShape(c, z, t, m);
      SendingStepShape(c, z, t, m);
      DataIsNeither(c, m.out, m.s.next);
    }
  }

  lemma NoHandshakeAckStays(c: Config, z: System, l: Label)
    requires Valid(c) && Inv(c, z) && Enabled(z, l) && NoHandshakeAck(c, z)
    ensures Hopeless(c, Step(c, z, l))
  {
    match l
    case SenderTurn(t) =>
      NoMoreAcks(c, z, t);
      OnlyFinAckCloses(c, z, t);
      if FinAck(c) in z.toS {
        FinAckMeansWritten(c, z);
      }
    case ReceiverTurn(t) =>
      AcceptingWaits(c, z, t);
  }

  lemma HopelessStays(c: Config, z: System, l: Label)
    requires Valid(c) && Inv(c, z) && Enabled(z, l) && Hopeless(c, z)
    ensures Hopeless(c, Step(c, z, l))
  {
    if z.s.phase.Failed? {
      FailedStep(c, z, l);
    } else if NoFinAck(c, z) {
      NoFinAckStays(c, z, l);
    } else if NoHandshakeAck(c, z) {
      NoHandshakeAckStays(c, z, l);
    } else {
      NoSynStays(c, z, l);
    }
  }

  lemma FailedStep(c: Config, z: System, l: Label)
    requires z.s.phase.Failed?
    ensures Step(c, z, l).s.phase.Failed?
  {
  }

  lemma {:induction false} HopelessRun(c: Config, z: System, labels: seq<Label>)
    requires Valid(c) && Inv(c, z) && Hopeless(c, z) && Allowed(c, z, labels)
    ensures var y := Exec(c, z, labels); Inv(c, y) && Hopeless(c, y) && !y.s.phase.Closed?
    decreases |labels|
  {
    if |labels| > 0 {
      var front, l := labels[..|labels| - 1], labels[|labels| - 1];
      HopelessRun(c, z, front);
      StepInv(c, Exec(c, z, front), l);
      HopelessStays(c, Exec(c, z, front), l);
    }
  }

  // ---------------------------------------------------------------- from which states the transfer can still end well

  /** From any state of any run, whatever has been lost for good until then, the sender can still get through close
      exactly if the receiver can take every number and the two sides are still in reach of each other. */
  lemma CanCloseExactly(c: Config, y: System)
    requires Valid(c) && LossyReachable(c, y)
    ensures CanClose(c, y) <==> Completable(c) && InReach(c, y)
  {
    LossyExactly(c, y);
    var z :| Reachable(c, z) && Losing(z, y);
    ReachableInv(c, z);
    ReachableFlow(c, z);
    LosingInv(c, z, y);
    if Completable(c) && InReach(c, y) {
      var labels := EndsInReach(c, y);
    } else if CanClose(c, y) {
      var labels :| Allowed(c, y, labels) && Exec(c, y, labels).s.phase.Closed?;
      RunInv(c, y, labels);
      ReachOrHopeless(c, z, y);
      HopelessRun(c, y, labels);
    }
  }

  /** What `z` leaves when everything in the channels is lost. */
  function Emptied(z: System): System {
    z.(toR := {}, toS := {})
  }

  /** Each side still repeats what the other waits for. */
  predicate Recoverable(z: System) {
    match z.s.phase
    case Connecting => z.r.phase.Accepting? || (z.r.phase.Listening? && z.s.retry < S.MAX_RETRY)
    case Settling => z.r.phase.Accepting? || z.r.phase.Receiving?
    case Sending => z.r.phase.Receiving?
    case Closing => z.r.phase.Receiving?
    case Closed => true
    case _ => false
  }

  lemma LossyLoses(c: Config, z: System, y: System)
    requires LossyReachable(c, z) && Losing(z, y)
    ensures LossyReachable(c, y)
  {
    LossyExactly(c, z);
    var w :| Reachable(c, w) && Losing(w, z);
    assert Losing(w, y);
    LossyExactly(c, y);
  }

  /** From which states no loss, however large, takes the last chance away. */
  lemma AnyLossExactly(c: Config, z: System)
    requires Valid(c) && LossyReachable(c, z)
    ensures (forall y :: Losing(z, y) ==> CanClose(c, y)) <==> Completable(c) && Recoverable(z)
    ensures CanClose(c, Emptied(z)) <==> Completable(c) && Recoverable(z)
  {
    forall y | Losing(z, y) ensures CanClose(c, y) <==> Completable(c) && InReach(c, y) {
      LossyLoses(c, z, y);
      CanCloseExactly(c, y);
    }
    assert Losing(z, Emptied(z));
  }

  /** As long as everything that has been sent can still arrive, nothing but a failure ends the chance. */
  lemma NoLossExactly(c: Config, z: System)
    requires Valid(c) && Reachable(c, z)
    ensures CanClose(c, z) <==> Completable(c) && !z.s.phase.Failed? && !z.r.phase.Failed?
  {
    ReachableInv(c, z);
    ReachableFlow(c, z);
    assert Losing(z, z);
    LossyExactly(c, z);
    CanCloseExactly(c, z);
    if z.s.phase.Closed? {
      ClosedIsWhole(c, z);
    }
  }

  // ---------------------------------------------------------------- one lost packet

  /** A reachable state from which the sender can get through close, but not without the packet `p`. */
  ghost predicate HangsOn(c: Config, z: System, p: Packet) {
    && Reachable(c, z) && !z.s.phase.Failed? && !z.r.phase.Failed? && (p in z.toR || p in z.toS)
    && CanClose(c, z) && !CanClose(c, z.(toR := z.toR - {p}, toS := z.toS - {p}))
  }

  lemma OnlyHope(c: Config, z: System, p: Packet)
    requires Valid(c) && Completable(c) && Reachable(c, z) && !z.s.phase.Failed? && !z.r.phase.Failed?
    requires p in z.toR || p in z.toS
    requires !InReach(c, z.(toR := z.toR - {p}, toS := z.toS - {p}))
    ensures HangsOn(c, z, p)
  {
    var y := z.(toR := z.toR - {p}, toS := z.toS - {p});
    NoLossExactly(c, z);
    assert Losing(z, y);
    LossyExactly(c, y);
    CanCloseExactly(c, y);
  }

  /** wait_close sends its FIN&ACK once: every transfer that can be completed can come to a state in which the file is
      written, and with the loss of that one packet close can no longer succeed. */
  lemma FinAckOnce(c: Config) returns (labels: seq<Label>)
    requires Valid(c) && Completable(c)
    ensures Allowed(c, Init(c), labels)
    ensures var y := Exec(c, Init(c), labels);
            y.s.phase.Closing? && y.written == Some(Carried(c.file)) && HangsOn(c, y, FinAck(c))
  {
    labels := LatchedRun(c);
    var z := Exec(c, Init(c), labels);
    ReachableInit(c);
    RunReachable(c, Init(c), labels);
    CompleteEndsExactly(c, z, QUIET);
    ReceiverEnds(c, z);
    ExecThen(c, Init(c), labels, ReceiverTurn(QUIET));
    labels := labels + [ReceiverTurn(QUIET)];
    RunReachable(c, Init(c), labels);
    OnlyHope(c, StepReceiver(c, z, QUIET), FinAck(c));
  }

  /** connect repeats the handshake ACK for two seconds only: every transfer that can be completed can come to a
      state in which connect has returned 0, and with the loss of that ACK wait_connect can no longer succeed. */
  lemma HandshakeAckOnce(c: Config) returns (labels: seq<Label>)
    requires Valid(c) && Completable(c)
    ensures Allowed(c, Init(c), labels)
    ensures var y := Exec(c, Init(c), labels);
            (y.s.phase.Sending? || y.s.phase.Closing?) && y.r.phase.Accepting? && HangsOn(c, y, Ack(c))
  {
    var z := Init(c);
    InitInv(c);
    assert [Syn(c)][0] in Sending([Syn(c)]);
    SynArrives(c, z, Syn(c));
    labels := [ReceiverTurn(Arrival(Syn(c)))];
    ExecOne(c, z, labels[0]);
    var y := StepReceiver(c, z, Arrival(Syn(c)));
    SynAckArrives(c, y, SynAck(c));
    ExecThen(c, z, labels, SenderTurn(Arrival(SynAck(c))));
    y, labels := StepSender(c, y, Arrival(SynAck(c))), labels + [SenderTurn(Arrival(SynAck(c)))];
    SettlingEnds(c, y);
    ExecThen(c, z, labels, SenderTurn(LATE));
    labels := labels + [SenderTurn(LATE)];
    ReachableInit(c);
    RunReachable(c, z, labels);
    assert Ack(c) in StepSender(c, y, LATE).toR;
    OnlyHope(c, StepSender(c, y, LATE), Ack(c));
  }
}
