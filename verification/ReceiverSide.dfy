/** The receiving endpoint, one loop iteration of wait_connect, recv_file_gbn and wait_close at a time
    (src/rtp.cpp:396-493, 745-796, 978-1050 and 561-665). */
module ReceiverSide {
  import opened SequenceNumbers
  import opened Packets
  import opened Segmentation

  /** `Accepted` and `Received` are the moments wait_connect and recv_file_gbn return 0, `Done` the one
      wait_close does; `Failed` is an error return or the exit inside LOG_FATAL. While waiting for the
      handshake ACK, `reply` is the number of the SYN&ACK. */
  datatype Phase =
    Listening | Accepting(reply: int) | Accepted | Receiving | Received | AwaitingFin | Lingering | Done | Failed

  /** The fields of Rtp that the receiver uses, and the local `recvBase` of recv_file_gbn.
      `connected` says that addrlen is not zero. */
  datatype Receiver = Receiver(
    phase: Phase,
    seqBase: int, seqNum: int,
    recvBase: int,
    dataMap: DataMap,
    fin: Option<int>,
    connected: bool)

  datatype Move = Move(r: Receiver, out: seq<Packet>)

  // ---------------------------------------------------------------- wait_connect

  function StartListen(r: Receiver): Receiver {
    r.(phase := Listening, fin := None)
  }

  /** The SYN fixes the numbers of the connection, and is answered. */
  function OnSyn(nb: Numbering, r: Receiver, syn: Packet): Move {
    var seqBase := Decode(nb, r.seqBase, syn.number);
    var reply := Successor(nb, syn.number);
    Move(r.(phase := Accepting(reply), connected := true,
            seqBase := seqBase, seqNum := Decode(nb, seqBase, syn.number)),
         [Header(reply, RTP_SYN_ACK)])
  }

  function ListeningTurn(nb: Numbering, r: Receiver, t: Turn): Move {
    if t.late then Move(r.(phase := Failed), []) else
      var q := ReadUntil(nb, r.seqBase, r.connected, r.fin, RTP_SYN, t.arrivals);
      var r1 := r.(fin := q.fin);
      if q.hit.Some? then OnSyn(nb, r1, q.hit.value)
      else Move(if t.fault then r1.(phase := Failed) else r1, [])
  }

  function AcceptingTurn(nb: Numbering, r: Receiver, t: Turn): Move
    requires r.phase.Accepting?
  {
    if t.late then Move(r.(phase := Failed), []) else
      var q := ReadUntil(nb, r.seqBase, r.connected, r.fin, RTP_ACK, t.arrivals);
      var r1 := r.(fin := q.fin);
      if q.hit.Some? then
        Move(if q.hit.value.number == r.phase.reply then r1.(phase := Accepted) else r1, [])
      else if t.fault then Move(r1.(phase := Failed), [])
      else Move(r1, [Header(r.phase.reply, RTP_SYN_ACK)])
  }

  // ---------------------------------------------------------------- recv_file_gbn

  function StartReceive(r: Receiver): Receiver {
    r.(phase := Receiving, recvBase := r.seqNum + 1)
  }

  /** The least number from `from` on that is not a key. */
  function FirstGap(keys: set<int>, from: int): (g: int)
    ensures from <= g && g !in keys
    ensures forall k :: from <= k < g ==> k in keys
    decreases |Above(keys, from)|
  {
    if from in keys then
      FewerAbove(keys, from);
      FirstGap(keys, from + 1)
    else from
  }

  ghost function Above(keys: set<int>, from: int): set<int> {
    set k | k in keys && from <= k
  }

  lemma FewerAbove(keys: set<int>, from: int)
    requires from in keys
    ensures |Above(keys, from + 1)| < |Above(keys, from)|
  {
    assert Above(keys, from) == Above(keys, from + 1) + {from};
  }

  /** A DAT packet: stored under its 64-bit number unless that is behind or already present. */
  function Store(nb: Numbering, r: Receiver, p: Packet): DataMap {
    var k := Decode(nb, r.seqBase, p.number);
    if k >= r.recvBase && k !in r.dataMap then r.dataMap[k := p] else r.dataMap
  }

  function OnData(nb: Numbering, r: Receiver, p: Packet): Move {
    var dataMap := Store(nb, r, p);
    var recvBase := FirstGap(dataMap.Keys, r.recvBase);
    Move(r.(dataMap := dataMap, recvBase := recvBase), [Header(Encode(nb, recvBase - 1), RTP_ACK)])
  }

  /** One iteration of the loop of recv_file_gbn. The clock is looked at before anything else; a late loop that
      has seen a FIN beyond the data received reports success (src/rtp.cpp:986-995). */
  function ReceivingTurn(nb: Numbering, r: Receiver, t: Turn): Move {
    if t.late then
      Move(r.(phase := if r.fin.Some? && r.fin.value > r.recvBase then Received else Failed), [])
    else if r.fin.Some? && r.recvBase >= r.fin.value then
      Move(r.(phase := Received), [])
    else
      var q := ReadUntil(nb, r.seqBase, r.connected, r.fin, RTP_DAT, t.arrivals);
      var r1 := r.(fin := q.fin);
      if q.hit.Some? then OnData(nb, r1, q.hit.value) else Move(r1, [])
  }

  /** The end of recv_file, after the map has been written: it is emptied, and its size added to the sequence number. */
  function EndReceive(r: Receiver): Receiver {
    r.(dataMap := map[], seqNum := r.seqNum + |r.dataMap|)
  }

  // ---------------------------------------------------------------- wait_close

  /** Entry of wait_close: a FIN already latched is answered at once. */
  function StartWaitClose(nb: Numbering, r: Receiver): Move {
    var r1 := r.(seqNum := r.seqNum + 1);
    if r.fin.Some? then Move(r1.(phase := Done), [Header(Encode(nb, r1.seqNum), RTP_FIN_ACK)])
    else Move(r1.(phase := AwaitingFin), [])
  }

  function AwaitingFinTurn(nb: Numbering, r: Receiver, t: Turn): Move {
    if t.late then Move(r.(phase := Failed), []) else
      var q := ReadUntil(nb, r.seqBase, r.connected, r.fin, RTP_FIN, t.arrivals);
      var r1 := r.(fin := q.fin);
      if q.hit.Some? && q.hit.value.number == Encode(nb, r.seqNum) then
        Move(r1.(phase := Lingering), [Header(Encode(nb, r.seqNum), RTP_FIN_ACK)])
      else Move(if q.hit.None? && t.fault then r1.(phase := Failed) else r1, [])
  }

  /** The two seconds after the FIN&ACK, in which a repeated FIN is answered again. */
  function LingeringTurn(nb: Numbering, r: Receiver, t: Turn): Move {
    if t.late then Move(r.(phase := Done, connected := false), []) else
      var q := ReadUntil(nb, r.seqBase, r.connected, r.fin, RTP_FIN, t.arrivals);
      var r1 := r.(fin := q.fin);
      if q.hit.Some? then
        Move(r1, if q.hit.value.number == Encode(nb, r.seqNum) then [Header(Encode(nb, r.seqNum), RTP_FIN_ACK)] else [])
      else Move(if t.fault then r1.(phase := Failed) else r1, [])
  }

  // ---------------------------------------------------------------- one iteration of whichever loop is running

  function Iterate(nb: Numbering, r: Receiver, t: Turn): Move {
    match r.phase
    case Listening => ListeningTurn(nb, r, t)
    case Accepting(_) => AcceptingTurn(nb, r, t)
    case Receiving => ReceivingTurn(nb, r, t)
    case AwaitingFin => AwaitingFinTurn(nb, r, t)
    case Lingering => LingeringTurn(nb, r, t)
    case _ => Move(r, [])
  }

  /** One of the loops is running. */
  predicate Going(phase: Phase) {
    phase.Listening? || phase.Accepting? || phase.Receiving? || phase.AwaitingFin? || phase.Lingering?
  }

  /** Any number of iterations, with everything they hand to the socket. */
  function Run(nb: Numbering, r: Receiver, turns: seq<Turn>): Move
    decreases |turns|
  {
    if |turns| == 0 then Move(r, []) else
      var before := Run(nb, r, turns[..|turns| - 1]);
      var last := Iterate(nb, before.r, turns[|turns| - 1]);
      Move(last.r, before.out + last.out)
  }

  lemma RunNext(nb: Numbering, r: Receiver, turns: seq<Turn>)
    requires |turns| > 0
    ensures var before := Run(nb, r, turns[..|turns| - 1]);
            var last := Iterate(nb, before.r, turns[|turns| - 1]);
            Run(nb, r, turns) == Move(last.r, before.out + last.out)
  {
  }

  /** Outside its loops the receiver does nothing. */
  lemma Idle(nb: Numbering, r: Receiver, t: Turn)
    requires !Going(r.phase)
    ensures Iterate(nb, r, t) == Move(r, [])
  {
  }

  /** Once in the loop of recv_file_gbn, the receiver stays there or leaves it for good. */
  lemma {:induction false} ReceivingPhase(nb: Numbering, r: Receiver, turns: seq<Turn>)
    requires r.phase.Receiving?
    ensures var y := Run(nb, r, turns).r; y.phase.Receiving? || y.phase.Received? || y.phase.Failed?
    decreases |turns|
  {
    if |turns| > 0 {
      ReceivingPhase(nb, r, turns[..|turns| - 1]);
    }
  }
}
