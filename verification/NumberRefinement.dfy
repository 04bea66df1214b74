/** The protocol on 30-bit wire numbers refines the one on unbounded numbers: decode every number of a run with the
    sender's base, and it is a run of the same program with numbers that never wrap. */
module NumberRefinement {
  import opened SequenceNumbers
  import opened Packets
  import opened Segmentation
  import opened TransferSystem
  import opened TransferInvariant
  import S = SenderSide
  import R = ReceiverSide

  /** The same transfer with numbers that never wrap. */
  function Unwrapped(c: Config): Config {
    c.(nb := Unbounded, packets := Packetize(Unbounded, c.x + 1, c.file))
  }

  /** The receiver decodes every number of the transfer at one distance from the sender: none, or 2^30 when its
      seq_base was left above x and no number reaches 2^30. */
  predicate Exact(c: Config) {
    c.nb.Wire? && (c.r0.seqBase <= c.x || End(c) < WIRE)
  }

  function Lift(c: Config, p: Packet): Packet {
    p.(number := Seq32To64(c.x, p.number))
  }

  function LiftAll(c: Config, packets: seq<Packet>): (lifted: seq<Packet>)
    ensures |lifted| == |packets|
  {
    seq(|packets|, i requires 0 <= i < |packets| => Lift(c, packets[i]))
  }

  function LiftTurn(c: Config, t: Turn): Turn {
    t.(arrivals := LiftAll(c, t.arrivals))
  }

  function LiftLabel(c: Config, l: Label): Label {
    match l
    case SenderTurn(t) => SenderTurn(LiftTurn(c, t))
    case ReceiverTurn(t) => ReceiverTurn(LiftTurn(c, t))
  }

  function LiftLabels(c: Config, labels: seq<Label>): (lifted: seq<Label>)
    ensures |lifted| == |labels|
  {
    seq(|labels|, i requires 0 <= i < |labels| => LiftLabel(c, labels[i]))
  }

  // ---------------------------------------------------------------- when two states are the same but for the numbers

  ghost predicate SameMap(c: Config, m: DataMap, n: DataMap, shift: int) {
    && SameKeys(m.Keys, n.Keys, shift)
    && (forall j, k :: j in m && k in n && j == k + shift ==> n[k] == Lift(c, m[j]))
  }

  ghost predicate SameKeys(m: set<int>, n: set<int>, shift: int) {
    forall j, k {:trigger j in m, k in n} :: j == k + shift ==> (j in m <==> k in n)
  }

  predicate SameFin(f: Option<int>, g: Option<int>, shift: int) {
    (f.None? && g.None?) || (f.Some? && g.Some? && f.value == g.value + shift)
  }

  ghost predicate SameSender(c: Config, s: S.Sender, v: S.Sender) {
    && v.phase == s.phase && v.isn == s.isn && v.retry == s.retry && v.seqBase == s.seqBase && v.seqNum == s.seqNum
    && v.base == s.base && v.next == s.next && v.highest == s.highest
    && v.cong == s.cong && v.lastAck == s.lastAck && v.fin == s.fin
    && SameMap(c, s.dataMap, v.dataMap, 0)
  }

  function LiftPhase(c: Config, phase: R.Phase): R.Phase {
    if phase.Accepting? then R.Accepting(Seq32To64(c.x, phase.reply)) else phase
  }

  ghost predicate SameReceiver(c: Config, r: R.Receiver, v: R.Receiver) {
    && v.phase == LiftPhase(c, r.phase) && v.connected == r.connected && SameFin(r.fin, v.fin, Shift(c))
    && (r.phase.Receiving? ==> r.recvBase == v.recvBase + Shift(c) && SameMap(c, r.dataMap, v.dataMap, Shift(c)))
  }

  /** Whatever was put on the wire was, with its number decoded, put into the unbounded channel. */
  ghost predicate Carries(c: Config, wire: set<Packet>, lifted: set<Packet>) {
    forall p :: p in wire ==> Lift(c, p) in lifted
  }

  ghost predicate Same(c: Config, z: System, u: System) {
    && SameSender(c, z.s, u.s) && SameReceiver(c, z.r, u.r) && z.written == u.written
    && Carries(c, z.toR, u.toR) && Carries(c, z.toS, u.toS)
  }

  ghost predicate SameOut(c: Config, out: seq<Packet>, lifted: seq<Packet>) {
    lifted == LiftAll(c, out)
  }

  lemma SameOutCarries(c: Config, out: seq<Packet>, lifted: seq<Packet>, wire: set<Packet>, unbounded: set<Packet>)
    requires SameOut(c, out, lifted) && Carries(c, wire, unbounded)
    ensures Carries(c, wire + Sending(out), unbounded + Sending(lifted))
  {
    forall p | p in Sending(out) ensures Lift(c, p) in Sending(lifted) {
      var i :| 0 <= i < |out| && out[i] == p;
      assert lifted[i] == Lift(c, p);
    }
  }

  lemma SameOutAppend(c: Config, a: seq<Packet>, b: seq<Packet>, la: seq<Packet>, lb: seq<Packet>)
    requires SameOut(c, a, la) && SameOut(c, b, lb)
    ensures SameOut(c, a + b, la + lb)
  {
  }

  // ---------------------------------------------------------------- numbers

  /** The numbers of the transfer, both ways. */
  lemma LiftNumbers(c: Config, k: int)
    requires InRange(c) && c.nb.Wire? && c.x <= k <= End(c)
    ensures Seq32To64(c.x, Encode(c.nb, k)) == k == Encode(Unbounded, k)
    ensures Encode(c.nb, k + Shift(c)) == Encode(c.nb, k)
    ensures Seq32To64(c.x, c.x) == c.x
  {
    Numbers(c);
    assert Decode(c.nb, c.x, Encode(c.nb, k)) == k;
    assert Decode(c.nb, c.x, c.x) == c.x;
  }

  lemma LiftReceiverNumber(c: Config, k: int)
    requires InRange(c) && Exact(c) && c.x <= k <= End(c)
    ensures Seq32To64(c.x + Shift(c), Encode(c.nb, k)) == k + Shift(c)
  {
    Numbers(c);
    assert Decode(c.nb, c.x + Shift(c), Encode(c.nb, k)) == k + Shift(c);
  }

  predicate Sized(c: Config) {
    InRange(c) && c.total == TotalPackets(c.file)
  }

  lemma UnwrappedValid(c: Config)
    requires Sized(c)
    ensures Valid(Unwrapped(c))
  {
  }

  lemma PacketizeAt(nb: Numbering, first: int, file: Bytes, k: int)
    requires first <= k < first + TotalPackets(file)
    ensures k in Packetize(nb, first, file)
    ensures Packetize(nb, first, file)[k] == Data(Encode(nb, k), Segment(file, k - first))
  {
  }

  lemma SameContiguous(c: Config, m: DataMap, n: DataMap, lo: int, hi: int)
    requires KeysAre(m, lo, hi) && KeysAre(n, lo, hi)
    requires forall k :: lo <= k < hi ==> n[k] == Lift(c, m[k])
    ensures SameMap(c, m, n, 0)
  {
  }

  /** The packets of the file, on the wire and with numbers that never wrap. */
  lemma PacketsLift(c: Config, first: int)
    requires Sized(c) && c.nb.Wire? && first == c.x + 1
    ensures SameMap(c, Packetize(c.nb, first, c.file), Packetize(Unbounded, first, c.file), 0)
  {
    var m, n := Packetize(c.nb, first, c.file), Packetize(Unbounded, first, c.file);
    forall k | first <= k < first + c.total ensures n[k] == Lift(c, m[k]) {
      LiftNumbers(c, k);
      PacketizeAt(c.nb, first, c.file, k);
      PacketizeAt(Unbounded, first, c.file, k);
    }
    SameContiguous(c, m, n, first, first + c.total);
  }

  // ---------------------------------------------------------------- waiting

  lemma LiftFront(c: Config, arrivals: seq<Packet>)
    requires |arrivals| > 0
    ensures LiftAll(c, arrivals)[0] == Lift(c, arrivals[0]) && LiftAll(c, arrivals)[1..] == LiftAll(c, arrivals[1..])
  {
  }

  ghost predicate FinsLift(c: Config, seqBase: int, arrivals: seq<Packet>, shift: int) {
    forall p :: p in arrivals && p.flags == RTP_FIN ==> Seq32To64(seqBase, p.number) == Lift(c, p).number + shift
  }

  function LiftHit(c: Config, hit: Option<Packet>): Option<Packet> {
    if hit.Some? then Some(Lift(c, hit.value)) else None
  }

  /** Waiting on lifted arrivals reads the lifted packet and latches the same FIN. */
  lemma {:induction false} ReadUntilLifts(c: Config, wireBase: int, base: int, connected: bool,
                                          f: Option<int>, g: Option<int>,
                                          flags: int, arrivals: seq<Packet>, shift: int)
    requires SameFin(f, g, shift) && (connected || flags != RTP_SYN ==> FinsLift(c, wireBase, arrivals, shift))
    ensures var q := ReadUntil(Wire, wireBase, connected, f, flags, arrivals);
            var v := ReadUntil(Unbounded, base, connected, g, flags, LiftAll(c, arrivals));
            SameFin(q.fin, v.fin, shift) && v.hit == LiftHit(c, q.hit)
    decreases |arrivals|
  {
    if |arrivals| > 0 {
      LiftFront(c, arrivals);
      assert arrivals[0] in arrivals;
      if arrivals[0].flags != flags {
        ReadUntilLifts(c, wireBase, base, connected || arrivals[0].flags == RTP_SYN,
                       Latch(Wire, wireBase, connected, f, arrivals[0]),
                       Latch(Unbounded, base, connected, g, Lift(c, arrivals[0])), flags, arrivals[1..], shift);
      }
    }
  }

  // ---------------------------------------------------------------- the sender

  ghost predicate SameSent(c: Config, m: S.Move, n: S.Move) {
    SameSender(c, m.s, n.s) && SameOut(c, m.out, n.out)
  }

  lemma LiftOne(c: Config, p: Packet)
    ensures LiftAll(c, [p]) == [Lift(c, p)] && LiftAll(c, []) == []
  {
  }

  lemma {:induction false} StoredLifts(c: Config, m: DataMap, n: DataMap, lo: int, hi: int)
    requires SameMap(c, m, n, 0)
    ensures SameOut(c, S.Stored(m, lo, hi), S.Stored(n, lo, hi))
    decreases hi - lo
  {
    if lo < hi {
      StoredLifts(c, m, n, lo, hi - 1);
      assert hi - 1 in m <==> hi - 1 in n;
    }
  }

  lemma FillLifts(c: Config, s: S.Sender, v: S.Sender, rto: bool)
    requires SameSender(c, s, v)
    ensures SameSent(c, S.FillWindow(s, rto), S.FillWindow(v, rto))
  {
    var next := S.FillTo(s.base, s.next, s.highest, s.cong.cwnd);
    StoredLifts(c, s.dataMap, v.dataMap, s.next, next);
    StoredLifts(c, s.dataMap, v.dataMap, s.base, next);
    SameOutAppend(c, S.Stored(s.dataMap, s.next, next), S.Stored(s.dataMap, s.base, next),
                  S.Stored(v.dataMap, s.next, next), S.Stored(v.dataMap, s.base, next));
  }

  lemma AckLifts(c: Config, s: S.Sender, v: S.Sender, ack: int)
    requires SameSender(c, s, v)
    ensures SameSent(c, S.OnAck(s, ack), S.OnAck(v, ack))
  {
    StoredLifts(c, s.dataMap, v.dataMap, s.base, s.base + 1);
  }

  /** The sender latches no FIN, so its waits read the same. */
  lemma SenderReadLifts(c: Config, z: System, flags: int, arrivals: seq<Packet>)
    requires InRange(c) && c.nb.Wire? && Inv(c, z) && forall p :: p in arrivals ==> p in z.toS
    ensures var q := ReadUntil(Wire, z.s.seqBase, true, z.s.fin, flags, arrivals);
            var v := ReadUntil(Unbounded, z.s.seqBase, true, z.s.fin, flags, LiftAll(c, arrivals));
            q.fin == v.fin == None && v.hit == LiftHit(c, q.hit)
  {
    forall p | p in arrivals && p.flags == RTP_FIN ensures Seq32To64(z.s.seqBase, p.number) == Lift(c, p).number {
    }
    ReadUntilLifts(c, z.s.seqBase, z.s.seqBase, true, z.s.fin, z.s.fin, flags, arrivals, 0);
    SenderFinSilent(c, z, flags, arrivals);
  }

  lemma AwaitLifts(c: Config, z: System, s: S.Sender, v: S.Sender, arrivals: seq<Packet>)
    requires InRange(c) && c.nb.Wire? && Inv(c, z) && forall p :: p in arrivals ==> p in z.toS
    requires s.seqBase == z.s.seqBase && s.fin == z.s.fin && SameSender(c, s, v)
    ensures SameSent(c, S.AwaitAck(Wire, s, arrivals), S.AwaitAck(Unbounded, v, LiftAll(c, arrivals)))
  {
    SenderReadLifts(c, z, RTP_ACK, arrivals);
    var q := ReadUntil(Wire, s.seqBase, true, s.fin, RTP_ACK, arrivals);
    if q.hit.Some? {
      AckLifts(c, s.(fin := q.fin), v.(fin := q.fin), Seq32To64(c.x, q.hit.value.number));
    }
  }

  lemma SendingLifts(c: Config, z: System, v: S.Sender, t: Turn)
    requires InRange(c) && c.nb.Wire? && Inv(c, z) && Enabled(z, SenderTurn(t))
    requires SameSender(c, z.s, v) && z.s.phase.Sending?
    ensures SameSent(c, S.SendingTurn(Wire, z.s, t), S.SendingTurn(Unbounded, v, LiftTurn(c, t)))
  {
    if !t.late {
      var f, g := S.FillWindow(z.s, t.rto), S.FillWindow(v, t.rto);
      FillLifts(c, z.s, v, t.rto);
      AwaitLifts(c, z, f.s, g.s, t.arrivals);
      SameOutAppend(c, f.out, S.AwaitAck(Wire, f.s, t.arrivals).out,
                    g.out, S.AwaitAck(Unbounded, g.s, LiftAll(c, t.arrivals)).out);
    }
  }

  lemma SynFacts(c: Config)
    requires InRange(c) && c.nb.Wire?
    ensures Successor(Wire, c.x) == Encode(Wire, c.x + 1)
    ensures Seq32To64(c.x, Encode(Wire, c.x + 1)) == c.x + 1 && Seq32To64(c.x, c.x) == c.x
  {
    Numbers(c);
    LiftNumbers(c, c.x + 1);
  }

  lemma SynAckNumber(c: Config, z: System, p: Packet)
    requires Inv(c, z) && p in z.toS && p.flags == RTP_SYN_ACK
    ensures p.number == Encode(c.nb, c.x + 1)
  {
    assert ToSender(c, z, p);
  }

  lemma ConnectingLifts(c: Config, z: System, v: S.Sender, t: Turn)
    requires InRange(c) && c.nb.Wire? && Inv(c, z) && Enabled(z, SenderTurn(t))
    requires SameSender(c, z.s, v) && z.s.phase.Connecting?
    ensures SameSent(c, S.ConnectingTurn(Wire, z.s, t), S.ConnectingTurn(Unbounded, v, LiftTurn(c, t)))
  {
    SenderReadLifts(c, z, RTP_SYN_ACK, t.arrivals);
    SynFacts(c);
    LiftOne(c, Header(c.x, RTP_SYN));
    LiftOne(c, Header(Encode(c.nb, c.x + 1), RTP_ACK));
    var q := ReadUntil(Wire, z.s.seqBase, true, z.s.fin, RTP_SYN_ACK, t.arrivals);
    if q.hit.Some? {
      SynAckNumber(c, z, q.hit.value);
    }
  }

  lemma SettlingLifts(c: Config, z: System, v: S.Sender, t: Turn)
    requires InRange(c) && c.nb.Wire? && Inv(c, z) && Enabled(z, SenderTurn(t))
    requires SameSender(c, z.s, v) && z.s.phase.Settling?
    ensures SameSent(c, S.SettlingTurn(Wire, z.s, t), S.SettlingTurn(Unbounded, v, LiftTurn(c, t)))
  {
    SenderReadLifts(c, z, RTP_SYN_ACK, t.arrivals);
    SynFacts(c);
    LiftOne(c, Header(Encode(c.nb, c.x + 1), RTP_ACK));
    var q := ReadUntil(Wire, z.s.seqBase, true, z.s.fin, RTP_SYN_ACK, t.arrivals);
    if q.hit.Some? {
      SynAckNumber(c, z, q.hit.value);
    }
  }

  lemma ClosingLifts(c: Config, z: System, v: S.Sender, t: Turn)
    requires InRange(c) && c.nb.Wire? && Inv(c, z) && Enabled(z, SenderTurn(t))
    requires SameSender(c, z.s, v) && z.s.phase.Closing?
    ensures SameSent(c, S.ClosingTurn(Wire, z.s, t), S.ClosingTurn(Unbounded, v, LiftTurn(c, t)))
  {
    SenderReadLifts(c, z, RTP_FIN_ACK, t.arrivals);
    LiftNumbers(c, End(c));
    LiftOne(c, Header(Encode(c.nb, End(c)), RTP_FIN));
    var q := ReadUntil(Wire, z.s.seqBase, true, z.s.fin, RTP_FIN_ACK, t.arrivals);
    if q.hit.Some? {
      assert ToSender(c, z, q.hit.value);
    }
  }

  lemma ThenCloseLifts(c: Config, m: S.Move, n: S.Move)
    requires Sized(c) && c.nb.Wire? && SameSent(c, m, n) && (m.s.phase.Sent? ==> m.s.seqNum == c.x)
    ensures SameSent(c, ThenClose(c, m), ThenClose(Unwrapped(c), n))
  {
    if m.s.phase.Sent? {
      LiftNumbers(c, End(c));
      LiftOne(c, Header(Encode(c.nb, End(c)), RTP_FIN));
      SameOutAppend(c, m.out, [Header(Encode(c.nb, End(c)), RTP_FIN)], n.out, [Header(End(c), RTP_FIN)]);
    }
  }

  lemma StartFileLifts(c: Config, s: S.Sender, v: S.Sender)
    requires Sized(c) && c.nb.Wire? && SameSender(c, s, v) && s.seqNum == c.x
    ensures SameSender(c, StartFile(c, s), StartFile(Unwrapped(c), v))
  {
    PacketsLift(c, s.seqNum + 1);
  }

  lemma StartFilePhase(c: Config, s: S.Sender)
    ensures StartFile(c, s).seqNum == s.seqNum
  {
  }

  lemma ConnectedLifts(c: Config, m: S.Move, n: S.Move)
    requires Sized(c) && c.nb.Wire? && SameSent(c, m, n) && m.s.phase.Connected? && m.s.seqNum == c.x
    ensures SameSent(c, SenderProgram(c, m), SenderProgram(Unwrapped(c), n))
  {
    var a, b := StartFile(c, m.s), StartFile(Unwrapped(c), n.s);
    StartFileLifts(c, m.s, n.s);
    StartFilePhase(c, m.s);
    ThenCloseLifts(c, S.Move(a, m.out), S.Move(b, n.out));
  }

  lemma ProgramLifts(c: Config, m: S.Move, n: S.Move)
    requires Sized(c) && c.nb.Wire? && SameSent(c, m, n)
    requires m.s.phase.Connected? || m.s.phase.Sent? ==> m.s.seqNum == c.x
    ensures SameSent(c, SenderProgram(c, m), SenderProgram(Unwrapped(c), n))
  {
    if m.s.phase.Connected? {
      ConnectedLifts(c, m, n);
    } else {
      ThenCloseLifts(c, m, n);
    }
  }

  /** When connect or send_file_gbn returns 0, seq_num is still x. */
  lemma SeqNumAtReturn(c: Config, z: System, t: Turn)
    requires InRange(c) && c.nb.Wire? && Inv(c, z)
    ensures var m := S.Iterate(c.nb, z.s, t); m.s.phase.Connected? || m.s.phase.Sent? ==> m.s.seqNum == c.x
  {
  }

  lemma SenderIterates(c: Config, z: System, v: S.Sender, t: Turn)
    requires InRange(c) && c.nb.Wire? && Inv(c, z) && Enabled(z, SenderTurn(t)) && SameSender(c, z.s, v)
    ensures SameSent(c, S.Iterate(Wire, z.s, t), S.Iterate(Unbounded, v, LiftTurn(c, t)))
  {
    match z.s.phase
    case Connecting => ConnectingLifts(c, z, v, t);
    case Settling => SettlingLifts(c, z, v, t);
    case Sending => SendingLifts(c, z, v, t);
    case Closing => ClosingLifts(c, z, v, t);
    case _ =>
  }

  lemma SenderTurnSame(c: Config, z: System, u: System, t: Turn)
    requires Valid(c) && c.nb.Wire? && Inv(c, z) && Same(c, z, u) && Enabled(z, SenderTurn(t))
    ensures SameSender(c, StepSender(c, z, t).s, StepSender(Unwrapped(c), u, LiftTurn(c, t)).s)
    ensures SameOut(c, SenderOut(c, z, t), SenderOut(Unwrapped(c), u, LiftTurn(c, t)))
  {
    var m, n := S.Iterate(Wire, z.s, t), S.Iterate(Unbounded, u.s, LiftTurn(c, t));
    SenderIterates(c, z, u.s, t);
    SeqNumAtReturn(c, z, t);
    ProgramLifts(c, m, n);
  }

  lemma SenderStepSame(c: Config, z: System, u: System, t: Turn)
    requires Valid(c) && c.nb.Wire? && Inv(c, z) && Same(c, z, u) && Enabled(z, SenderTurn(t))
    ensures Same(c, StepSender(c, z, t), StepSender(Unwrapped(c), u, LiftTurn(c, t)))
  {
    SenderTurnSame(c, z, u, t);
    SameOutCarries(c, SenderOut(c, z, t), SenderOut(Unwrapped(c), u, LiftTurn(c, t)), z.toR, u.toR);
  }

  // ---------------------------------------------------------------- the receiver

  ghost predicate SameReceived(c: Config, m: R.Move, n: R.Move) {
    SameReceiver(c, m.r, n.r) && SameOut(c, m.out, n.out)
  }

  /** A FIN or DAT that reaches a connected receiver decodes to its number, at the receiver's distance. */
  lemma ArrivingNumber(c: Config, z: System, p: Packet)
    requires InRange(c) && Exact(c) && ToReceiver(c, z, p) && Next(c, z) <= End(c)
    requires p.flags == RTP_FIN || p.flags == RTP_DAT
    ensures c.x < Lift(c, p).number <= End(c) && Seq32To64(c.x + Shift(c), p.number) == Lift(c, p).number + Shift(c)
  {
    var k := End(c);
    if p.flags == RTP_DAT {
      k :| k < Next(c, z) && IsData(c, p, k);
    }
    LiftNumbers(c, k);
    LiftReceiverNumber(c, k);
  }

  lemma ReceiverReadLifts(c: Config, z: System, v: R.Receiver, flags: int, arrivals: seq<Packet>)
    requires InRange(c) && Exact(c) && Inv(c, z) && forall p :: p in arrivals ==> p in z.toR
    requires SameReceiver(c, z.r, v) && (z.r.connected || flags == RTP_SYN)
    ensures var q := ReadUntil(Wire, z.r.seqBase, z.r.connected, z.r.fin, flags, arrivals);
            var w := ReadUntil(Unbounded, v.seqBase, v.connected, v.fin, flags, LiftAll(c, arrivals));
            SameFin(q.fin, w.fin, Shift(c)) && w.hit == LiftHit(c, q.hit)
  {
    if z.r.connected {
      forall p | p in arrivals && p.flags == RTP_FIN
        ensures Seq32To64(z.r.seqBase, p.number) == Lift(c, p).number + Shift(c)
      {
        ArrivingNumber(c, z, p);
      }
    }
    ReadUntilLifts(c, z.r.seqBase, v.seqBase, z.r.connected, z.r.fin, v.fin, flags, arrivals, Shift(c));
  }

  lemma SynLifts(c: Config, r: R.Receiver, v: R.Receiver, syn: Packet)
    requires InRange(c) && Exact(c) && SameFin(r.fin, v.fin, Shift(c)) && syn.number == c.x
    ensures SameReceived(c, R.OnSyn(Wire, r, syn), R.OnSyn(Unbounded, v, Lift(c, syn)))
  {
    SynFacts(c);
    LiftOne(c, Header(Encode(c.nb, c.x + 1), RTP_SYN_ACK));
  }

  lemma ListeningLifts(c: Config, z: System, v: R.Receiver, t: Turn)
    requires InRange(c) && Exact(c) && Inv(c, z) && Enabled(z, ReceiverTurn(t))
    requires SameReceiver(c, z.r, v) && z.r.phase.Listening?
    ensures SameReceived(c, R.ListeningTurn(Wire, z.r, t), R.ListeningTurn(Unbounded, v, LiftTurn(c, t)))
  {
    ReceiverReadLifts(c, z, v, RTP_SYN, t.arrivals);
    LiftOne(c, Header(0, 0));
    var q := ReadUntil(Wire, z.r.seqBase, z.r.connected, z.r.fin, RTP_SYN, t.arrivals);
    var w := ReadUntil(Unbounded, v.seqBase, v.connected, v.fin, RTP_SYN, LiftAll(c, t.arrivals));
    if q.hit.Some? {
      SynNumber(c, z, q.hit.value);
      SynLifts(c, z.r.(fin := q.fin), v.(fin := w.fin), q.hit.value);
    }
  }

  lemma SynNumber(c: Config, z: System, p: Packet)
    requires Inv(c, z) && p in z.toR && p.flags == RTP_SYN
    ensures p.number == c.x
  {
    assert ToReceiver(c, z, p);
  }

  lemma AcceptingLifts(c: Config, z: System, v: R.Receiver, t: Turn)
    requires InRange(c) && Exact(c) && Inv(c, z) && Enabled(z, ReceiverTurn(t))
    requires SameReceiver(c, z.r, v) && z.r.phase.Accepting?
    ensures SameReceived(c, R.AcceptingTurn(Wire, z.r, t), R.AcceptingTurn(Unbounded, v, LiftTurn(c, t)))
  {
    ReceiverReadLifts(c, z, v, RTP_ACK, t.arrivals);
    LiftNumbers(c, c.x + 1);
    LiftOne(c, Header(Encode(c.nb, c.x + 1), RTP_SYN_ACK));
    var q := ReadUntil(Wire, z.r.seqBase, z.r.connected, z.r.fin, RTP_ACK, t.arrivals);
    if q.hit.Some? {
      HandshakeAckNumber(c, z, q.hit.value);
    }
  }

  lemma HandshakeAckNumber(c: Config, z: System, p: Packet)
    requires Inv(c, z) && p in z.toR && p.flags == RTP_ACK
    ensures p.number == Encode(c.nb, c.x + 1)
  {
    assert ToReceiver(c, z, p);
  }

  lemma FirstGapIs(keys: set<int>, from: int, g: int)
    requires from <= g && g !in keys && forall k :: from <= k < g ==> k in keys
    ensures R.FirstGap(keys, from) == g
  {
  }

  lemma GapLifts(m: set<int>, n: set<int>, from: int, shift: int)
    requires SameKeys(m, n, shift)
    ensures R.FirstGap(m, from) == R.FirstGap(n, from - shift) + shift
  {
    var h := R.FirstGap(n, from - shift);
    forall k | from <= k < h + shift ensures k in m {
      assert k - shift in n;
    }
    FirstGapIs(m, from, h + shift);
  }

  lemma SameMapInsert(c: Config, m: DataMap, n: DataMap, shift: int, j: int, k: int, p: Packet)
    requires SameMap(c, m, n, shift) && j == k + shift
    ensures SameMap(c, m[j := p], n[k := Lift(c, p)], shift)
    ensures j in m <==> k in n
  {
  }

  lemma StoreLifts(c: Config, r: R.Receiver, v: R.Receiver, p: Packet)
    requires r.recvBase == v.recvBase + Shift(c) && SameMap(c, r.dataMap, v.dataMap, Shift(c))
    requires Seq32To64(r.seqBase, p.number) == Lift(c, p).number + Shift(c)
    ensures SameMap(c, R.Store(Wire, r, p), R.Store(Unbounded, v, Lift(c, p)), Shift(c))
  {
    SameMapInsert(c, r.dataMap, v.dataMap, Shift(c), Seq32To64(r.seqBase, p.number), Lift(c, p).number, p);
  }

  lemma DataLifts(c: Config, r: R.Receiver, v: R.Receiver, p: Packet)
    requires InRange(c) && Exact(c) && SameReceiver(c, r, v) && r.phase.Receiving?
    requires Seq32To64(r.seqBase, p.number) == Lift(c, p).number + Shift(c)
    requires c.x + Shift(c) < r.recvBase && R.OnData(Wire, r, p).r.recvBase <= End(c) + Shift(c)
    ensures SameReceived(c, R.OnData(Wire, r, p), R.OnData(Unbounded, v, Lift(c, p)))
  {
    StoreLifts(c, r, v, p);
    GapLifts(R.Store(Wire, r, p).Keys, R.Store(Unbounded, v, Lift(c, p)).Keys, r.recvBase, Shift(c));
    AckLiftsBack(c, R.OnData(Wire, r, p).r.recvBase, R.OnData(Unbounded, v, Lift(c, p)).r.recvBase);
  }

  lemma AckLiftsBack(c: Config, wire: int, base: int)
    requires InRange(c) && Exact(c) && wire == base + Shift(c) && c.x < base <= End(c) + 1
    ensures SameOut(c, [Header(Encode(Wire, wire - 1), RTP_ACK)], [Header(Encode(Unbounded, base - 1), RTP_ACK)])
  {
    LiftNumbers(c, base - 1);
    LiftOne(c, Header(Encode(c.nb, wire - 1), RTP_ACK));
  }

  lemma ReceiverStepFrom(c: Config, z: System, u: System, t: Turn)
    requires Same(c, z, u)
    requires var m := ReceiverProgram(c, R.Iterate(c.nb, z.r, t));
             var n := ReceiverProgram(Unwrapped(c), R.Iterate(Unbounded, u.r, LiftTurn(c, t)));
             SameReceived(c, m, n)
    requires StepReceiver(c, z, t).written == StepReceiver(Unwrapped(c), u, LiftTurn(c, t)).written
    ensures Same(c, StepReceiver(c, z, t), StepReceiver(Unwrapped(c), u, LiftTurn(c, t)))
  {
    var m := ReceiverProgram(c, R.Iterate(c.nb, z.r, t));
    var n := ReceiverProgram(Unwrapped(c), R.Iterate(Unbounded, u.r, LiftTurn(c, t)));
    SameOutCarries(c, m.out, n.out, z.toS, u.toS);
  }

  /** The moment wait_connect returns: both receivers start expecting the same number. */
  lemma AcceptedLifts(c: Config, z: System, u: System, t: Turn)
    requires InRange(c) && Exact(c) && Inv(c, z) && Inv(Unwrapped(c), u) && Enabled(z, ReceiverTurn(t))
    requires SameReceiver(c, z.r, u.r) && z.r.phase.Accepting?
    ensures SameReceived(c, ReceiverProgram(c, R.Iterate(Wire, z.r, t)),
                            ReceiverProgram(Unwrapped(c), R.Iterate(Unbounded, u.r, LiftTurn(c, t))))
  {
    AcceptingLifts(c, z, u.r, t);
    var m, n := R.AcceptingTurn(Wire, z.r, t), R.AcceptingTurn(Unbounded, u.r, LiftTurn(c, t));
    assert m.r.seqNum == c.x + Shift(c) && n.r.seqNum == c.x && m.r.dataMap == map[] == n.r.dataMap;
  }

  lemma DataArrives(c: Config, z: System, r: R.Receiver, v: R.Receiver, p: Packet)
    requires InRange(c) && Exact(c) && Inv(c, z) && z.r.phase.Receiving?
    requires r == z.r.(fin := r.fin) && SameReceiver(c, r, v) && p in z.toR && p.flags == RTP_DAT
    ensures SameReceived(c, R.OnData(Wire, r, p), R.OnData(Unbounded, v, Lift(c, p)))
  {
    ArrivingNumber(c, z, p);
    DataShape(c, z, r, p);
    DataLifts(c, r, v, p);
  }

  lemma ReceivingLifts(c: Config, z: System, v: R.Receiver, t: Turn)
    requires InRange(c) && Exact(c) && Inv(c, z) && Enabled(z, ReceiverTurn(t))
    requires SameReceiver(c, z.r, v) && z.r.phase.Receiving? && !t.late
    requires z.r.fin.Some? ==> z.r.recvBase < z.r.fin.value
    ensures SameReceived(c, R.ReceivingTurn(Wire, z.r, t), R.ReceivingTurn(Unbounded, v, LiftTurn(c, t)))
  {
    ReceiverReadLifts(c, z, v, RTP_DAT, t.arrivals);
    var q := ReadUntil(Wire, z.r.seqBase, z.r.connected, z.r.fin, RTP_DAT, t.arrivals);
    var w := ReadUntil(Unbounded, v.seqBase, v.connected, v.fin, RTP_DAT, LiftAll(c, t.arrivals));
    if q.hit.Some? {
      DataArrives(c, z, z.r.(fin := q.fin), v.(fin := w.fin), q.hit.value);
    }
  }

  lemma FinishLifts(c: Config, z: System, u: System, t: Turn)
    requires Valid(c) && Exact(c) && Inv(c, z) && Inv(Unwrapped(c), u) && Same(c, z, u)
    requires z.r.phase.Receiving? && !t.late && z.r.fin.Some? && z.r.recvBase >= z.r.fin.value
    requires Inv(c, StepReceiver(c, z, t)) && Inv(Unwrapped(c), StepReceiver(Unwrapped(c), u, LiftTurn(c, t)))
    ensures Same(c, StepReceiver(c, z, t), StepReceiver(Unwrapped(c), u, LiftTurn(c, t)))
  {
    var d := Unwrapped(c);
    var lifted := LiftTurn(c, t);
    FinishShape(c, z, t);
    FinishShape(d, u, lifted);
    FinishStates(c, z, StepReceiver(c, z, t));
    FinishStates(d, u, StepReceiver(d, u, lifted));
    FinishSame(c, z, u, StepReceiver(c, z, t), StepReceiver(d, u, lifted));
  }

  lemma FinishSame(c: Config, z: System, u: System, y: System, v: System)
    requires InRange(c) && c.nb.Wire? && Same(c, z, u)
    requires Finished(c, z, y) && Finished(Unwrapped(c), u, v)
    ensures Same(c, y, v)
  {
    FinAcksLift(c, z.toS, u.toS);
  }

  ghost predicate Finished(c: Config, z: System, y: System) {
    && y.r.phase.Done? && y.r.connected == z.r.connected && y.r.fin == z.r.fin && y.s == z.s && y.toR == z.toR
    && y.written == Some(Carried(c.file))
    && y.toS == z.toS + Sending([Header(Encode(c.nb, End(c) + Shift(c)), RTP_FIN_ACK)])
  }

  /** What the end of recv_file and the wait_close after it leave. */
  lemma FinishStates(c: Config, z: System, y: System)
    requires Inv(c, z) && Inv(c, y) && z.r.phase.Receiving? && z.r.fin.Some?
    requires var m := R.StartWaitClose(c.nb, R.EndReceive(z.r.(phase := R.Received)));
             y == z.(r := m.r, written := Some(InOrder(z.r.dataMap)), toS := z.toS + Sending(m.out))
    ensures Finished(c, z, y)
  {
  }

  lemma FinAcksLift(c: Config, wire: set<Packet>, lifted: set<Packet>)
    requires InRange(c) && c.nb.Wire? && Carries(c, wire, lifted)
    ensures Carries(c, wire + Sending([Header(Encode(c.nb, End(c) + Shift(c)), RTP_FIN_ACK)]),
                       lifted + Sending([Header(Encode(Unbounded, End(c)), RTP_FIN_ACK)]))
  {
    LiftNumbers(c, End(c));
    LiftOne(c, Header(Encode(c.nb, End(c)), RTP_FIN_ACK));
    SameOutCarries(c, [Header(Encode(c.nb, End(c)), RTP_FIN_ACK)], [Header(End(c), RTP_FIN_ACK)], wire, lifted);
  }

  lemma FailLifts(c: Config, z: System, u: System, t: Turn)
    requires Inv(c, z) && Inv(Unwrapped(c), u) && Same(c, z, u) && z.r.phase.Receiving? && t.late
    ensures Same(c, StepReceiver(c, z, t), StepReceiver(Unwrapped(c), u, LiftTurn(c, t)))
  {
    LiftOne(c, Header(0, 0));
    ReceiverStepFrom(c, z, u, t);
  }

  lemma LoopLifts(c: Config, z: System, u: System, t: Turn)
    requires InRange(c) && Exact(c) && Inv(c, z) && Inv(Unwrapped(c), u) && Same(c, z, u)
    requires Enabled(z, ReceiverTurn(t)) && z.r.phase.Receiving?
    requires t.late || (z.r.fin.Some? ==> z.r.recvBase < z.r.fin.value)
    ensures Same(c, StepReceiver(c, z, t), StepReceiver(Unwrapped(c), u, LiftTurn(c, t)))
  {
    if t.late {
      FailLifts(c, z, u, t);
    } else {
      ReceivingLifts(c, z, u.r, t);
      ReceiverStepFrom(c, z, u, t);
    }
  }

  lemma ListeningSame(c: Config, z: System, u: System, t: Turn)
    requires InRange(c) && Exact(c) && Inv(c, z) && Same(c, z, u) && Enabled(z, ReceiverTurn(t)) && z.r.phase.Listening?
    ensures Same(c, StepReceiver(c, z, t), StepReceiver(Unwrapped(c), u, LiftTurn(c, t)))
  {
    ListeningLifts(c, z, u.r, t);
    ReceiverStepFrom(c, z, u, t);
  }

  lemma AcceptingSame(c: Config, z: System, u: System, t: Turn)
    requires InRange(c) && Exact(c) && Inv(c, z) && Inv(Unwrapped(c), u) && Same(c, z, u)
    requires Enabled(z, ReceiverTurn(t)) && z.r.phase.Accepting?
    ensures Same(c, StepReceiver(c, z, t), StepReceiver(Unwrapped(c), u, LiftTurn(c, t)))
  {
    AcceptedLifts(c, z, u, t);
    ReceiverStepFrom(c, z, u, t);
  }

  lemma IdleSame(c: Config, z: System, u: System, t: Turn)
    requires Same(c, z, u) && (z.r.phase.Done? || z.r.phase.Failed?)
    ensures Same(c, StepReceiver(c, z, t), StepReceiver(Unwrapped(c), u, LiftTurn(c, t)))
  {
    LiftOne(c, Header(0, 0));
    ReceiverStepFrom(c, z, u, t);
  }

  lemma ReceiverStepSame(c: Config, z: System, u: System, t: Turn)
    requires Valid(c) && Exact(c) && Inv(c, z) && Inv(Unwrapped(c), u) && Same(c, z, u)
    requires Enabled(z, ReceiverTurn(t))
    requires Inv(c, StepReceiver(c, z, t)) && Inv(Unwrapped(c), StepReceiver(Unwrapped(c), u, LiftTurn(c, t)))
    ensures Same(c, StepReceiver(c, z, t), StepReceiver(Unwrapped(c), u, LiftTurn(c, t)))
  {
    if z.r.phase.Receiving? {
      if !t.late && z.r.fin.Some? && z.r.recvBase >= z.r.fin.value {
        FinishLifts(c, z, u, t);
      } else {
        LoopLifts(c, z, u, t);
      }
    } else if z.r.phase.Listening? {
      ListeningSame(c, z, u, t);
    } else if z.r.phase.Accepting? {
      AcceptingSame(c, z, u, t);
    } else {
      IdleSame(c, z, u, t);
    }
  }

  // ---------------------------------------------------------------- runs

  lemma LiftEnabled(c: Config, z: System, u: System, l: Label)
    requires Same(c, z, u) && Enabled(z, l)
    ensures Enabled(u, LiftLabel(c, l))
  {
    forall p | p in LiftAll(c, l.turn.arrivals)
      ensures l.SenderTurn? ==> p in u.toS
      ensures l.ReceiverTurn? ==> p in u.toR
    {
      var i :| 0 <= i < |l.turn.arrivals| && p == Lift(c, l.turn.arrivals[i]);
      assert l.turn.arrivals[i] in l.turn.arrivals;
    }
  }

  /** Every step on wire numbers is a step on unbounded numbers. */
  lemma StepSame(c: Config, z: System, u: System, l: Label)
    requires Valid(c) && Exact(c) && Inv(c, z) && Valid(Unwrapped(c)) && Inv(Unwrapped(c), u) && Same(c, z, u)
    requires Enabled(z, l) && Enabled(u, LiftLabel(c, l))
    ensures Same(c, Step(c, z, l), Step(Unwrapped(c), u, LiftLabel(c, l)))
  {
    match l
    case SenderTurn(t) =>
      SenderStepSame(c, z, u, t);
    case ReceiverTurn(t) =>
      ReceiverStepKeeps(c, z, t);
      ReceiverStepKeeps(Unwrapped(c), u, LiftTurn(c, t));
      ReceiverStepSame(c, z, u, t);
  }

  lemma LiftLabelsFront(c: Config, labels: seq<Label>)
    requires |labels| > 0
    ensures LiftLabels(c, labels)[..|labels| - 1] == LiftLabels(c, labels[..|labels| - 1])
  {
  }

  lemma InitSame(c: Config)
    requires InRange(c) && c.nb.Wire?
    ensures Same(c, Init(c), Init(Unwrapped(c)))
  {
    LiftNumbers(c, c.x);
    forall p | p in Init(c).toR ensures Lift(c, p) in Init(Unwrapped(c)).toR {
      assert p == Header(c.x, RTP_SYN) == Lift(c, p);
      assert p == [p][0] && p in Sending([p]);
    }
  }

  lemma InvBoth(c: Config, labels: seq<Label>)
    requires Valid(c) && Valid(Unwrapped(c))
    requires Allowed(c, Init(c), labels) && Allowed(Unwrapped(c), Init(Unwrapped(c)), LiftLabels(c, labels))
    ensures Inv(c, Exec(c, Init(c), labels))
    ensures Inv(Unwrapped(c), Exec(Unwrapped(c), Init(Unwrapped(c)), LiftLabels(c, labels)))
  {
    RunKeeps(c, labels);
    RunKeeps(Unwrapped(c), LiftLabels(c, labels));
  }

  lemma StepMirrors(c: Config, z: System, u: System, l: Label)
    requires Valid(c) && Exact(c) && Valid(Unwrapped(c)) && Inv(c, z) && Inv(Unwrapped(c), u) && Same(c, z, u)
    requires Enabled(z, l)
    ensures Enabled(u, LiftLabel(c, l)) && Same(c, Step(c, z, l), Step(Unwrapped(c), u, LiftLabel(c, l)))
  {
    LiftEnabled(c, z, u, l);
    StepSame(c, z, u, l);
  }

  lemma LastStep(c: Config, z: System, labels: seq<Label>, front: seq<Label>, last: Label)
    requires |labels| > 0 && front == labels[..|labels| - 1] && last == labels[|labels| - 1]
    ensures Exec(c, z, labels) == Step(c, Exec(c, z, front), last)
    ensures Allowed(c, z, labels) <==> Allowed(c, z, front) && Enabled(Exec(c, z, front), last)
  {
  }

  /** `z` and `u` are the ends of a wire run and of its lifted form. */
  ghost predicate Ends(c: Config, labels: seq<Label>, z: System, u: System) {
    && Allowed(c, Init(c), labels) && z == Exec(c, Init(c), labels)
    && Allowed(Unwrapped(c), Init(Unwrapped(c)), LiftLabels(c, labels))
    && u == Exec(Unwrapped(c), Init(Unwrapped(c)), LiftLabels(c, labels))
  }

  lemma EndsStep(c: Config, labels: seq<Label>, front: seq<Label>, last: Label, z: System, u: System)
    requires |labels| > 0 && front == labels[..|labels| - 1] && last == labels[|labels| - 1]
    requires Ends(c, front, z, u) && Enabled(z, last) && Enabled(u, LiftLabel(c, last))
    ensures Ends(c, labels, Step(c, z, last), Step(Unwrapped(c), u, LiftLabel(c, last)))
  {
    LiftLabelsFront(c, labels);
    LastStep(c, Init(c), labels, front, last);
    LastStep(Unwrapped(c), Init(Unwrapped(c)), LiftLabels(c, labels), LiftLabels(c, front), LiftLabel(c, last));
  }

  lemma {:induction false} RunMirrors(c: Config, labels: seq<Label>) returns (z: System, u: System)
    requires Valid(c) && Exact(c) && Valid(Unwrapped(c)) && Allowed(c, Init(c), labels)
    ensures Ends(c, labels, z, u) && Same(c, z, u)
    decreases |labels|
  {
    if |labels| == 0 {
      InitSame(c);
      z, u := Init(c), Init(Unwrapped(c));
    } else {
      var front, last := labels[..|labels| - 1], labels[|labels| - 1];
      z, u := RunMirrors(c, front);
      InvBoth(c, front);
      StepMirrors(c, z, u, last);
      EndsStep(c, labels, front, last, z, u);
      z, u := Step(c, z, last), Step(Unwrapped(c), u, LiftLabel(c, last));
    }
  }

  /** The same turns, with all their packets decoded, take both systems the same way. */
  lemma WireRunRefines(c: Config, labels: seq<Label>)
    requires Valid(c) && Exact(c) && Allowed(c, Init(c), labels)
    ensures Valid(Unwrapped(c)) && Allowed(Unwrapped(c), Init(Unwrapped(c)), LiftLabels(c, labels))
    ensures Same(c, Exec(c, Init(c), labels), Exec(Unwrapped(c), Init(Unwrapped(c)), LiftLabels(c, labels)))
  {
    UnwrappedValid(c);
    var z, u := RunMirrors(c, labels);
  }

  // ---------------------------------------------------------------- processes that stop

  function LiftEvent(c: Config, e: Event): Event {
    match e
    case Turning(l) => Turning(LiftLabel(c, l))
    case SenderStopping(t, sends) => SenderStopping(LiftTurn(c, t), sends)
    case ReceiverStopping(t, sends, saved) => ReceiverStopping(LiftTurn(c, t), sends, saved)
  }

  lemma SameOutFront(c: Config, out: seq<Packet>, lifted: seq<Packet>, n: nat)
    requires SameOut(c, out, lifted) && n <= |out|
    ensures SameOut(c, out[..n], lifted[..n])
  {
  }

  lemma SenderStopSame(c: Config, z: System, u: System, y: System, t: Turn, sends: nat) returns (v: System)
    requires Valid(c) && Exact(c) && Inv(c, z) && Same(c, z, u) && SenderStops(c, z, y, t, sends)
    ensures SenderStops(Unwrapped(c), u, v, LiftTurn(c, t), sends) && Same(c, y, v)
  {
    var d, lifted := Unwrapped(c), LiftTurn(c, t);
    LiftEnabled(c, z, u, SenderTurn(t));
    SenderTurnSame(c, z, u, t);
    FillLifts(c, z.s, u.s, t.rto);
    SameOutFront(c, SenderOut(c, z, t), SenderOut(d, u, lifted), sends);
    SameOutCarries(c, SenderOut(c, z, t)[..sends], SenderOut(d, u, lifted)[..sends], z.toR, u.toR);
    v := u.(s := StepSender(d, u, lifted).s.(phase := S.Failed),
            toR := u.toR + Sending(SenderOut(d, u, lifted)[..sends]));
  }

  lemma LoopRepliesSame(c: Config, z: System, v: R.Receiver, t: Turn)
    requires InRange(c) && Exact(c) && Inv(c, z) && Enabled(z, ReceiverTurn(t))
    requires SameReceiver(c, z.r, v) && z.r.phase.Receiving? && !t.late
    requires z.r.fin.Some? ==> z.r.recvBase < z.r.fin.value
    ensures |ReceiverProgram(c, R.ReceivingTurn(Wire, z.r, t)).out|
         == |ReceiverProgram(Unwrapped(c), R.ReceivingTurn(Unbounded, v, LiftTurn(c, t))).out|
  {
    ReceivingLifts(c, z, v, t);
  }

  /** Both receivers answer a turn with as many packets. */
  lemma RepliesSame(c: Config, z: System, u: System, t: Turn)
    requires InRange(c) && Exact(c) && Inv(c, z) && Inv(Unwrapped(c), u)
    requires SameReceiver(c, z.r, u.r) && Enabled(z, ReceiverTurn(t))
    ensures |ReceiverOut(c, z, t)| == |ReceiverOut(Unwrapped(c), u, LiftTurn(c, t))|
  {
    if z.r.phase.Listening? {
      ListeningLifts(c, z, u.r, t);
    } else if z.r.phase.Accepting? {
      AcceptedLifts(c, z, u, t);
    } else if z.r.phase.Receiving? {
      if !t.late && (z.r.fin.Some? ==> z.r.recvBase < z.r.fin.value) {
        LoopRepliesSame(c, z, u.r, t);
      }
    }
  }

  lemma NothingSent(c: Config, z: System, t: Turn)
    requires Inv(c, z) && |ReceiverOut(c, z, t)| > 0
    ensures z.toS + Sending(ReceiverOut(c, z, t)[..0]) == z.toS
  {
  }

  lemma StoppedSame(c: Config, z: System, u: System, w: System, x: System, y: System, saved: bool) returns (v: System)
    requires Same(c, z, u) && Same(c, w, x)
    requires y == z.(r := w.r.(phase := R.Failed), written := if saved then w.written else z.written)
    ensures v == u.(r := x.r.(phase := R.Failed), written := if saved then x.written else u.written) && Same(c, y, v)
  {
    v := u.(r := x.r.(phase := R.Failed), written := if saved then x.written else u.written);
  }

  lemma ReceiverStopSame(c: Config, z: System, u: System, y: System, t: Turn, sends: nat, saved: bool)
    returns (v: System)
    requires Valid(c) && Exact(c) && Inv(c, z) && Valid(Unwrapped(c)) && Inv(Unwrapped(c), u) && Same(c, z, u)
    requires ReceiverStops(c, z, y, t, sends, saved)
    ensures ReceiverStops(Unwrapped(c), u, v, LiftTurn(c, t), sends, saved) && Same(c, y, v)
  {
    var d, lifted := Unwrapped(c), LiftTurn(c, t);
    StepMirrors(c, z, u, ReceiverTurn(t));
    RepliesSame(c, z, u, t);
    OneReply(c, z, t);
    NothingSent(c, z, t);
    NothingSent(d, u, lifted);
    v := StoppedSame(c, z, u, StepReceiver(c, z, t), StepReceiver(d, u, lifted), y, saved);
  }

  lemma EventSame(c: Config, z: System, u: System, e: Event, y: System) returns (v: System)
    requires Valid(c) && Exact(c) && Inv(c, z) && Valid(Unwrapped(c)) && Inv(Unwrapped(c), u) && Same(c, z, u)
    requires Happens(c, z, e, y)
    ensures Happens(Unwrapped(c), u, LiftEvent(c, e), v) && Same(c, y, v)
  {
    match e
    case Turning(l) =>
      StepMirrors(c, z, u, l);
      v := Step(Unwrapped(c), u, LiftLabel(c, l));
    case SenderStopping(t, sends) =>
      v := SenderStopSame(c, z, u, y, t, sends);
    case ReceiverStopping(t, sends, saved) =>
      v := ReceiverStopSame(c, z, u, y, t, sends, saved);
  }

  lemma StartSame(c: Config, z: System) returns (u: System)
    requires InRange(c) && c.nb.Wire? && Starts(c, z)
    ensures Starts(Unwrapped(c), u) && Same(c, z, u)
  {
    InitSame(c);
    u := Init(Unwrapped(c));
    if z != Init(c) {
      u := u.(s := u.s.(phase := S.Failed), toR := {});
    }
  }

  ghost predicate SameEvent(c: Config, z: System, y: System, u: System, v: System) {
    exists e :: Happens(c, z, e, y) && Happens(Unwrapped(c), u, LiftEvent(c, e), v)
  }

  lemma FollowsSame(c: Config, z: System, u: System, y: System) returns (v: System)
    requires Valid(c) && Exact(c) && Inv(c, z) && Valid(Unwrapped(c)) && Inv(Unwrapped(c), u) && Same(c, z, u)
    requires Follows(c, z, y)
    ensures Follows(Unwrapped(c), u, v) && Same(c, y, v) && SameEvent(c, z, y, u, v)
  {
    var e :| Happens(c, z, e, y);
    v := EventSame(c, z, u, e, y);
  }

  /** `p` holds of the elements of `a` and `b` side by side, and `q` of each step in one and the same step in the
      other. */
  ghost predicate SideBySide<T(!new)>(p: (T, T) -> bool, q: (T, T, T, T) -> bool, a: seq<T>, b: seq<T>) {
    && |a| == |b|
    && (forall i :: 0 <= i < |a| ==> p(a[i], b[i]))
    && (forall i, j :: 0 <= i < j < |a| && j == i + 1 ==> q(a[i], a[j], b[i], b[j]))
  }

  lemma SideBySideMore<T(!new)>(p: (T, T) -> bool, q: (T, T, T, T) -> bool, a: seq<T>, b: seq<T>, y: T, v: T)
    requires SideBySide(p, q, a, b) && p(y, v) && (|a| > 0 ==> q(a[|a| - 1], y, b[|a| - 1], v))
    ensures SideBySide(p, q, a + [y], b + [v])
  {
  }

  /** State by state and event by event, `lifted` is the run `states` with its numbers decoded. */
  ghost predicate Decoded(c: Config, states: seq<System>, lifted: seq<System>) {
    SideBySide((z, u) => Same(c, z, u), (z, y, u, v) => SameEvent(c, z, y, u, v), states, lifted)
  }

  lemma BehaviourFront(c: Config, states: seq<System>, front: seq<System>)
    requires Behaviour(c, states) && |states| > 1 && front == states[..|states| - 1]
    ensures Behaviour(c, front) && Follows(c, front[|front| - 1], states[|states| - 1])
  {
    assert FollowsAt(c, states, |states| - 2);
    forall i | 0 <= i < |front| - 1 ensures FollowsAt(c, front, i) {
      assert FollowsAt(c, states, i);
      FollowsIsAt(c, front, i, states[i], states[i + 1]);
    }
  }

  lemma DecodedMore(c: Config, a: seq<System>, b: seq<System>, y: System, v: System)
    requires Decoded(c, a, b) && Same(c, y, v)
    requires |a| > 0 ==> SameEvent(c, a[|a| - 1], y, b[|a| - 1], v)
    ensures Decoded(c, a + [y], b + [v])
  {
    SideBySideMore((z, u) => Same(c, z, u), (z, y, u, v) => SameEvent(c, z, y, u, v), a, b, y, v);
  }

  lemma FollowsDecoded(c: Config, a: seq<System>, b: seq<System>, y: System) returns (v: System)
    requires Valid(c) && Exact(c) && Valid(Unwrapped(c)) && Decoded(c, a, b)
    requires Behaviour(c, a) && Behaviour(Unwrapped(c), b) && Follows(c, a[|a| - 1], y)
    ensures Follows(Unwrapped(c), b[|a| - 1], v)
    ensures Same(c, y, v) && SameEvent(c, a[|a| - 1], y, b[|a| - 1], v)
  {
    BehaviourInv(c, a, |a| - 1);
    BehaviourInv(Unwrapped(c), b, |a| - 1);
    v := FollowsSame(c, a[|a| - 1], b[|a| - 1], y);
  }

  /** Every run on wire numbers, also one in which a process stops, is, with all its numbers decoded by the sender's
      base, a run on unbounded numbers: the same events, phases, windows and congestion state, the same map of
      packets, and the same file. */
  lemma {:induction false} WireRefinesUnbounded(c: Config, states: seq<System>) returns (lifted: seq<System>)
    requires Valid(c) && Exact(c) && Behaviour(c, states)
    ensures Valid(Unwrapped(c)) && Behaviour(Unwrapped(c), lifted) && Decoded(c, states, lifted)
    decreases |states|
  {
    UnwrappedValid(c);
    var n := |states| - 1;
    assert states == states[..n] + [states[n]];
    if n == 0 {
      var u := StartSame(c, states[0]);
      DecodedMore(c, [], [], states[0], u);
      lifted := [] + [u];
    } else {
      BehaviourFront(c, states, states[..n]);
      var front := WireRefinesUnbounded(c, states[..n]);
      var v := FollowsDecoded(c, states[..n], front, states[n]);
      lifted := front + [v];
      BehaviourFollows(Unwrapped(c), front, lifted, v);
      DecodedMore(c, states[..n], front, states[n], v);
    }
  }
}
