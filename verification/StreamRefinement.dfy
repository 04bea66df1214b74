/** The whole protocol refines a reliable byte stream: to whoever watches the receiver, the file appears in order,
    front first, and the end is announced only when all of it has come. */
module StreamRefinement {
  import opened Packets
  import opened Segmentation
  import opened TransferSystem
  import opened TransferInvariant

  /** What the receiving application has: nothing yet, a part of the stream, all of it and the end, or a failure. */
  datatype Stream = Waiting | Flowing(bytes: Bytes) | Complete(bytes: Bytes) | Aborted

  /** One step of a reliable stream that carries `file`. */
  predicate StreamStep(file: Bytes, a: Stream, b: Stream) {
    || a == b
    || (a.Waiting? && (b == Flowing([]) || b.Aborted?))
    || (a.Flowing? && b.Flowing? && a.bytes <= b.bytes <= file)
    || (a == Flowing(file) && b == Complete(file))
    || (a.Flowing? && b.Aborted?)
  }

  /** What of the stream the receiver's own fields show: the payloads without a gap before them. */
  function View(z: System): Stream {
    if z.written.Some? then Complete(z.written.value)
    else if z.r.phase.Receiving? then Flowing(Payloads(z.r.dataMap, z.r.seqNum + 1, z.r.recvBase))
    else if z.r.phase.Failed? then Aborted
    else Waiting
  }

  lemma FlowingView(c: Config, z: System)
    requires Keyed(c) && Inv(c, z) && z.r.phase.Receiving?
    ensures z.written.None? ==> View(z) == Flowing(Payloads(c.packets, c.x + 1, Expected(c, z)))
  {
    ContiguousSame(c, z);
    PayloadsAgree(c.packets, z.r.dataMap, c.x + 1, Expected(c, z), Shift(c));
  }

  lemma FlowGrows(c: Config, z: System, y: System)
    requires Valid(c) && Keyed(c) && Inv(c, z) && Inv(c, y)
    requires z.r.phase.Receiving? && y.r.phase.Receiving? && z.written.None? && y.written.None?
    requires Expected(c, z) <= Expected(c, y)
    ensures StreamStep(Carried(c.file), View(z), View(y))
  {
    FlowingView(c, z);
    FlowingView(c, y);
    PayloadsGrow(c, Expected(c, z), Expected(c, y));
  }

  lemma PayloadsGrow(c: Config, a: int, b: int)
    requires Packed(c) && c.x + 1 <= a <= b <= End(c)
    ensures Payloads(c.packets, c.x + 1, a) <= Payloads(c.packets, c.x + 1, b) <= Carried(c.file)
  {
    PacketsAreFile(c);
    PayloadsPrefix(c.packets, c.x + 1, a, b);
    PayloadsPrefix(c.packets, c.x + 1, b, End(c));
  }

  lemma FlowBegins(c: Config, y: System)
    requires Keyed(c) && Inv(c, y) && y.r.phase.Receiving? && y.written.None? && y.r.recvBase == y.r.seqNum + 1
    ensures View(y) == Flowing([])
  {
  }

  lemma FlowEnds(c: Config, z: System, y: System)
    requires Valid(c) && Keyed(c) && Inv(c, z) && Inv(c, y) && z.r.phase.Receiving? && z.r.fin.Some?
    requires z.written.None? && y.written.Some?
    ensures StreamStep(Carried(c.file), View(z), View(y))
  {
    FlowingView(c, z);
    PacketsAreFile(c);
  }

  /** How the receiver's phase can change in one step. */
  lemma ReceiverPhases(c: Config, z: System, t: Turn)
    requires Inv(c, z)
    ensures var y := StepReceiver(c, z, t);
            && (z.r.phase.Listening? ==>
                  y.written == z.written && (y.r.phase.Listening? || y.r.phase.Accepting? || y.r.phase.Failed?))
            && (z.r.phase.Accepting? ==>
                  && y.written == z.written
                  && (y.r.phase.Accepting? || y.r.phase.Failed?
                      || (y.r.phase.Receiving? && y.r.recvBase == y.r.seqNum + 1)))
            && (z.r.phase.Done? || z.r.phase.Failed? ==> y.r == z.r && y.written == z.written)
  {
  }

  lemma ReceivingPhases(c: Config, z: System, t: Turn)
    requires Inv(c, z) && z.r.phase.Receiving?
    ensures var y := StepReceiver(c, z, t);
            || (y.written == z.written && (y.r.phase.Receiving? || y.r.phase.Failed?))
            || (z.r.fin.Some? && y.written.Some?)
  {
  }

  lemma HandshakeRefines(c: Config, z: System, t: Turn)
    requires Valid(c) && Inv(c, z) && Enabled(z, ReceiverTurn(t)) && !z.r.phase.Receiving?
    ensures StreamStep(Carried(c.file), View(z), View(StepReceiver(c, z, t)))
  {
    var y := StepReceiver(c, z, t);
    ReceiverPhases(c, z, t);
    ReceiverStepKeeps(c, z, t);
    PackedIsKeyed(c);
    if z.r.phase.Accepting? && y.r.phase.Receiving? {
      FlowBegins(c, y);
    }
  }

  lemma LoopRefines(c: Config, z: System, t: Turn)
    requires Valid(c) && Inv(c, z) && Enabled(z, ReceiverTurn(t)) && z.r.phase.Receiving?
    ensures StreamStep(Carried(c.file), View(z), View(StepReceiver(c, z, t)))
  {
    var y := StepReceiver(c, z, t);
    ReceivingPhases(c, z, t);
    ReceiverStepKeeps(c, z, t);
    PackedIsKeyed(c);
    if y.written.Some? {
      FlowEnds(c, z, y);
    } else if y.r.phase.Receiving? {
      FlowGrows(c, z, y);
    }
  }

  /** Each step of the protocol is one step of the stream. */
  lemma StepRefines(c: Config, z: System, l: Label)
    requires Valid(c) && Inv(c, z) && Enabled(z, l)
    ensures StreamStep(Carried(c.file), View(z), View(Step(c, z, l)))
  {
    if l.ReceiverTurn? {
      if z.r.phase.Receiving? {
        LoopRefines(c, z, l.turn);
      } else {
        HandshakeRefines(c, z, l.turn);
      }
    }
  }

  /** A receiver that stops in the middle of a turn leaves the stream where it was or where the turn was going. */
  lemma StopRefines(c: Config, z: System, y: System, t: Turn, sends: nat, saved: bool)
    requires Valid(c) && Inv(c, z) && ReceiverStops(c, z, y, t, sends, saved)
    ensures StreamStep(Carried(c.file), View(z), View(y))
  {
    StepRefines(c, z, ReceiverTurn(t));
    ReceiverStepKeeps(c, z, t);
  }

  lemma SameView(z: System, y: System)
    requires y.r == z.r && y.written == z.written
    ensures View(y) == View(z)
  {
  }

  lemma EventRefines(c: Config, z: System, e: Event, y: System)
    requires Valid(c) && Inv(c, z) && Happens(c, z, e, y)
    ensures StreamStep(Carried(c.file), View(z), View(y))
  {
    match e
    case Turning(l) => StepRefines(c, z, l);
    case SenderStopping(t, sends) => SameView(z, y);
    case ReceiverStopping(t, sends, saved) => StopRefines(c, z, y, t, sends, saved);
  }

  lemma FollowsRefines(c: Config, z: System, y: System)
    requires Valid(c) && Inv(c, z) && Follows(c, z, y)
    ensures StreamStep(Carried(c.file), View(z), View(y))
  {
    var e :| Happens(c, z, e, y);
    EventRefines(c, z, e, y);
  }

  // ---------------------------------------------------------------- whole runs

  ghost function Views(states: seq<System>): (v: seq<Stream>)
    ensures |v| == |states|
  {
    seq(|states|, i requires 0 <= i < |states| => View(states[i]))
  }

  ghost predicate StreamRun(file: Bytes, views: seq<Stream>) {
    && |views| > 0 && views[0] == Waiting
    && forall i :: 0 <= i < |views| - 1 ==> StreamStep(file, views[i], views[i + 1])
  }

  /** Every run of the protocol over faulty channels, with processes that may stop, is, seen from the receiver, a run
      of the stream of the file. */
  lemma RunRefines(c: Config, states: seq<System>)
    requires Valid(c) && Behaviour(c, states)
    ensures StreamRun(Carried(c.file), Views(states))
  {
    var views := Views(states);
    forall i | 0 <= i < |views| - 1 ensures StreamStep(Carried(c.file), views[i], views[i + 1]) {
      assert FollowsAt(c, states, i);
      BehaviourInv(c, states, i);
      FollowsRefines(c, states[i], states[i + 1]);
    }
  }
}
