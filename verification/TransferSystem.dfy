/** Sender, receiver and two channels as one step system. A channel is the set of every packet ever handed to it:
    delivering any member any number of times, in any order, or never, is duplication, reordering and loss.
    A packet that fails its checksum is dropped by recv_packet and so is a loss as well. */
module TransferSystem {
  import opened SequenceNumbers
  import opened Packets
  import opened Segmentation
  import opened Congestion
  import S = SenderSide
  import R = ReceiverSide

  /** What the fields of an Rtp object that its constructor leaves unset happen to hold. */
  datatype Leftover = Leftover(seqNum: int, seqBase: int, finReceived: bool, finSeq: int)

  function LeftoverFin(l: Leftover): Option<int> {
    if l.finReceived then Some(l.finSeq) else None
  }

  /** One transfer: the random number `x` drawn by connect, the file, what send_file makes of it (`total` packets,
      kept in the map `packets`), and what the two objects hold before anything is set. */
  datatype Config =
    Config(nb: Numbering, x: int, file: Bytes, total: nat, packets: DataMap, s0: Leftover, r0: Leftover)

  predicate InRange(c: Config) {
    0 <= c.x < WIRE && 0 <= c.r0.seqBase < UINT32 && c.total + 1 < WIRE
  }

  predicate Packed(c: Config) {
    c.total == TotalPackets(c.file) && c.packets == Packetize(c.nb, c.x + 1, c.file)
  }

  ghost predicate Valid(c: Config) {
    InRange(c) && Packed(c)
  }

  /** Every choice of the free parameters is a transfer. */
  lemma TransferOf(nb: Numbering, x: int, file: Bytes, s0: Leftover, r0: Leftover) returns (c: Config)
    requires 0 <= x < WIRE && 0 <= r0.seqBase < UINT32
    ensures Valid(c) && c.nb == nb && c.x == x && c.file == file && c.s0 == s0 && c.r0 == r0
  {
    c := Config(nb, x, file, TotalPackets(file), Packetize(nb, x + 1, file), s0, r0);
  }

  /** `written` is the content of the receiver's output file, once recv_file has written it. */
  datatype System = System(s: S.Sender, r: R.Receiver, written: Option<Bytes>, toR: set<Packet>, toS: set<Packet>)

  /** One loop iteration of either program. */
  datatype Label = SenderTurn(turn: Turn) | ReceiverTurn(turn: Turn)

  function Sending(out: seq<Packet>): set<Packet> {
    set p | p in out
  }

  // ---------------------------------------------------------------- the two programs

  /** src/sender.cpp:24-42: connect, then send_file, then close. */
  function SenderProgram(c: Config, m: S.Move): S.Move {
    if m.s.phase.Connected? then
      ThenClose(c, S.Move(StartFile(c, m.s), m.out))
    else ThenClose(c, m)
  }

  /** The sender as send_file enters send_file_gbn, the file packed into an empty map. */
  function StartFile(c: Config, s: S.Sender): S.Sender {
    S.StartSend(s, Packetize(c.nb, s.seqNum + 1, c.file), TotalPackets(c.file))
  }

  function ThenClose(c: Config, m: S.Move): S.Move {
    if m.s.phase.Sent? then
      var k := S.StartClose(c.nb, S.EndSend(m.s, TotalPackets(c.file)));
      S.Move(k.s, m.out + k.out)
    else m
  }

  /** What the program adds to a turn does not depend on what was sent before. */
  lemma ProgramAppends(c: Config, k: S.Move, before: seq<Packet>)
    ensures var p, q := SenderProgram(c, k), SenderProgram(c, S.Move(k.s, before + k.out));
            q.s == p.s && q.out == before + p.out
  {
  }

  /** src/receiver.cpp:34-47: wait_connect, then recv_file, then wait_close. */
  function ReceiverProgram(c: Config, m: R.Move): R.Move {
    if m.r.phase.Accepted? then R.Move(R.StartReceive(m.r), m.out)
    else if m.r.phase.Received? then
      var k := R.StartWaitClose(c.nb, R.EndReceive(m.r));
      R.Move(k.r, m.out + k.out)
    else m
  }

  // ---------------------------------------------------------------- steps and runs

  function NewSender(c: Config): S.Sender {
    S.Sender(S.Connecting, 0, 0, c.s0.seqBase, c.s0.seqNum, 0, 0, 0, INITIAL, -1, map[], LeftoverFin(c.s0))
  }

  function NewReceiver(c: Config): R.Receiver {
    R.StartListen(R.Receiver(R.Listening, c.r0.seqBase, c.r0.seqNum, 0, map[], LeftoverFin(c.r0), false))
  }

  function Init(c: Config): System {
    var m := S.StartConnect(NewSender(c), c.x);
    System(m.s, NewReceiver(c), None, Sending(m.out), {})
  }

  ghost function StepSender(c: Config, z: System, t: Turn): System {
    var m := SenderProgram(c, S.Iterate(c.nb, z.s, t));
    z.(s := m.s, toR := z.toR + Sending(m.out))
  }

  ghost function StepReceiver(c: Config, z: System, t: Turn): System {
    var k := R.Iterate(c.nb, z.r, t);
    var m := ReceiverProgram(c, k);
    z.(r := m.r, toS := z.toS + Sending(m.out),
       written := if k.r.phase.Received? then Some(InOrder(k.r.dataMap)) else z.written)
  }

  ghost function Step(c: Config, z: System, l: Label): System {
    match l
    case SenderTurn(t) => StepSender(c, z, t)
    case ReceiverTurn(t) => StepReceiver(c, z, t)
  }

  /** Only packets that were sent can arrive. */
  ghost predicate Enabled(z: System, l: Label) {
    match l
    case SenderTurn(t) => forall p :: p in t.arrivals ==> p in z.toS
    case ReceiverTurn(t) => forall p :: p in t.arrivals ==> p in z.toR
  }

  ghost function Exec(c: Config, z: System, labels: seq<Label>): System
    decreases |labels|
  {
    if |labels| == 0 then z else Step(c, Exec(c, z, labels[..|labels| - 1]), labels[|labels| - 1])
  }

  ghost predicate Allowed(c: Config, z: System, labels: seq<Label>)
    decreases |labels|
  {
    |labels| == 0 ||
    (Allowed(c, z, labels[..|labels| - 1]) && Enabled(Exec(c, z, labels[..|labels| - 1]), labels[|labels| - 1]))
  }

  // ---------------------------------------------------------------- reachable states

  /** What the sender, or the receiver, hands to the socket in one turn. */
  ghost function SenderOut(c: Config, z: System, t: Turn): seq<Packet> {
    SenderProgram(c, S.Iterate(c.nb, z.s, t)).out
  }

  ghost function ReceiverOut(c: Config, z: System, t: Turn): seq<Packet> {
    ReceiverProgram(c, R.Iterate(c.nb, z.r, t)).out
  }

  /** Whether the program looks at the result of the send after the first `sends` of this turn: it does, except when
      a third duplicate ACK makes the send loop repeat a packet (src/rtp.cpp:943). That repeat comes after the filling
      and resending of its turn, and the loop goes on. */
  ghost predicate Checked(c: Config, z: System, t: Turn, sends: nat) {
    z.s.phase.Sending? && StepSender(c, z, t).s.phase.Sending? ==> sends < |S.FillWindow(z.s, t.rto).out|
  }

  /** A send fails after the first `sends` of a turn, and the process ends. The other reasons for which the receiver
      ends come before a send as well: an output file that cannot be opened leaves nothing written (`!saved`). */
  ghost predicate SenderStops(c: Config, z: System, y: System, t: Turn, sends: nat) {
    && Enabled(z, SenderTurn(t)) && sends < |SenderOut(c, z, t)| && Checked(c, z, t, sends)
    && y.s == StepSender(c, z, t).s.(phase := S.Failed) && y.toR == z.toR + Sending(SenderOut(c, z, t)[..sends])
    && y.r == z.r && y.toS == z.toS && y.written == z.written
  }

  /** A sender that stops sends no more than the whole turn would have. */
  lemma SenderStopsSends(c: Config, z: System, y: System, t: Turn, sends: nat)
    requires SenderStops(c, z, y, t, sends)
    ensures z.toR <= y.toR <= StepSender(c, z, t).toR
  {
    FrontSent(SenderOut(c, z, t), sends);
  }

  lemma FrontSent(out: seq<Packet>, n: nat)
    requires n <= |out|
    ensures Sending(out[..n]) <= Sending(out)
  {
  }

  ghost predicate ReceiverStops(c: Config, z: System, y: System, t: Turn, sends: nat, saved: bool) {
    && Enabled(z, ReceiverTurn(t)) && sends < |ReceiverOut(c, z, t)|
    && y.r == StepReceiver(c, z, t).r.(phase := R.Failed) && y.toS == z.toS + Sending(ReceiverOut(c, z, t)[..sends])
    && y.written == (if saved then StepReceiver(c, z, t).written else z.written)
    && y.s == z.s && y.toR == z.toR
  }

  /** What can happen: one turn of either program, or a process that stops. */
  datatype Event =
    | Turning(step: Label)
    | SenderStopping(turn: Turn, sends: nat)
    | ReceiverStopping(turn: Turn, sends: nat, saved: bool)

  ghost predicate Happens(c: Config, z: System, e: Event, y: System) {
    match e
    case Turning(l) => Enabled(z, l) && y == Step(c, z, l)
    case SenderStopping(t, sends) => SenderStops(c, z, y, t, sends)
    case ReceiverStopping(t, sends, saved) => ReceiverStops(c, z, y, t, sends, saved)
  }

  ghost predicate Follows(c: Config, z: System, y: System) {
    exists e :: Happens(c, z, e, y)
  }

  ghost predicate FollowsAt(c: Config, states: seq<System>, i: nat)
    requires i + 1 < |states|
  {
    Follows(c, states[i], states[i + 1])
  }

  /** The start, also if the very first send fails. */
  ghost predicate Starts(c: Config, z: System) {
    z == Init(c) || z == Init(c).(s := Init(c).s.(phase := S.Failed), toR := {})
  }

  ghost predicate Behaviour(c: Config, states: seq<System>) {
    && |states| > 0 && Starts(c, states[0])
    && forall i :: 0 <= i < |states| - 1 ==> FollowsAt(c, states, i)
  }

  /** `z` is a state of some run of the transfer `c`, in which either process may also stop at any send. */
  ghost predicate Reachable(c: Config, z: System) {
    exists states :: Behaviour(c, states) && z == states[|states| - 1]
  }

  lemma ReachableInit(c: Config)
    ensures Reachable(c, Init(c))
  {
    assert Behaviour(c, [Init(c)]);
  }

  lemma FollowsIsAt(c: Config, states: seq<System>, i: nat, z: System, y: System)
    requires Follows(c, z, y) && i + 1 < |states| && states[i] == z && states[i + 1] == y
    ensures FollowsAt(c, states, i)
  {
  }

  lemma BehaviourFollows(c: Config, states: seq<System>, more: seq<System>, y: System)
    requires Behaviour(c, states) && Follows(c, states[|states| - 1], y) && more == states + [y]
    ensures Behaviour(c, more)
  {
    forall i | 0 <= i < |more| - 1 ensures FollowsAt(c, more, i) {
      if i < |states| - 1 {
        assert FollowsAt(c, states, i);
        FollowsIsAt(c, more, i, states[i], states[i + 1]);
      } else {
        FollowsIsAt(c, more, i, states[i], y);
      }
    }
  }

  lemma ReachableFollows(c: Config, z: System, y: System)
    requires Reachable(c, z) && Follows(c, z, y)
    ensures Reachable(c, y)
  {
    var states :| Behaviour(c, states) && z == states[|states| - 1];
    BehaviourFollows(c, states, states + [y], y);
  }

  /** What a run given by its labels leads to is reachable, from the start or from any reachable state. */
  lemma {:induction false} RunReachable(c: Config, z: System, labels: seq<Label>)
    requires Reachable(c, z) && Allowed(c, z, labels)
    ensures Reachable(c, Exec(c, z, labels))
    decreases |labels|
  {
    if |labels| > 0 {
      var before := Exec(c, z, labels[..|labels| - 1]);
      RunReachable(c, z, labels[..|labels| - 1]);
      assert Happens(c, before, Turning(labels[|labels| - 1]), Step(c, before, labels[|labels| - 1]));
      ReachableFollows(c, before, Step(c, before, labels[|labels| - 1]));
    }
  }
}
