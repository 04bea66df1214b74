/** That a transfer gets on: nothing is ever lost again, one delivered window moves the base, and exactly which
    transfers can be completed at all. */
module TransferProgress {
  import opened SequenceNumbers
  import opened Packets
  import opened Congestion
  import opened TransferSystem
  import opened TransferInvariant
  import S = SenderSide
  import R = ReceiverSide

  /** How many packets are still unacknowledged. */
  function Remaining(c: Config, z: System): int {
    End(c) - Base(c, z)
  }

  lemma StepKeeps(c: Config, z: System, l: Label)
    requires Valid(c) && Inv(c, z) && Enabled(z, l)
    ensures Inv(c, Step(c, z, l))
    ensures Base(c, z) <= Base(c, Step(c, z, l)) && Expected(c, z) <= Expected(c, Step(c, z, l))
    ensures Next(c, z) <= Next(c, Step(c, z, l))
    ensures z.toR <= Step(c, z, l).toR && z.toS <= Step(c, z, l).toS
  {
    match l
    case SenderTurn(t) => SenderStepKeeps(c, z, t);
    case ReceiverTurn(t) => ReceiverStepKeeps(c, z, t);
  }

  // ---------------------------------------------------------------- runs

  lemma {:induction false} ExecAppend(c: Config, z: System, a: seq<Label>, b: seq<Label>)
    ensures Exec(c, z, a + b) == Exec(c, Exec(c, z, a), b)
    ensures Allowed(c, z, a + b) <==> Allowed(c, z, a) && Allowed(c, Exec(c, z, a), b)
    decreases |b|
  {
    if |b| == 0 {
      assert a + b == a;
    } else {
      var front := b[..|b| - 1];
      assert (a + b)[..|a + b| - 1] == a + front;
      ExecAppend(c, z, a, front);
    }
  }

  lemma ExecOne(c: Config, z: System, l: Label)
    ensures Exec(c, z, [l]) == Step(c, z, l)
    ensures Allowed(c, z, [l]) <==> Enabled(z, l)
  {
    assert [l][..0] == [];
    assert Exec(c, z, []) == z;
  }

  lemma ExecThen(c: Config, z: System, labels: seq<Label>, l: Label)
    requires Allowed(c, z, labels) && Enabled(Exec(c, z, labels), l)
    ensures Allowed(c, z, labels + [l]) && Exec(c, z, labels + [l]) == Step(c, Exec(c, z, labels), l)
  {
    assert (labels + [l])[..|labels|] == labels;
  }

  /** No step, and so no run, ever raises the number of unacknowledged packets. */
  lemma {:induction false} RemainingNeverRises(c: Config, z: System, labels: seq<Label>)
    requires Valid(c) && Inv(c, z) && Allowed(c, z, labels)
    ensures Inv(c, Exec(c, z, labels))
    ensures 0 <= Remaining(c, Exec(c, z, labels)) <= Remaining(c, z)
    decreases |labels|
  {
    if |labels| > 0 {
      var front := labels[..|labels| - 1];
      RemainingNeverRises(c, z, front);
      StepKeeps(c, Exec(c, z, front), labels[|labels| - 1]);
    }
  }

  // ---------------------------------------------------------------- turns that wait for their own answer

  /** A turn of the send loop is two steps of the system: one that sends and reads nothing, and one that waits.
      Receiver turns can come between the two, so an ACK for a packet can be read in the very wait that follows it. */
  lemma SplitStep(c: Config, z: System, t: Turn)
    requires Valid(c) && Reachable(c, z) && z.s.phase.Sending? && !t.late
    ensures var y := StepSender(c, z, t.(arrivals := []));
            && y.s.phase.Sending? && y.r == z.r
            && StepSender(c, y, t.(rto := false)) == StepSender(c, z, t)
  {
    ReachableInv(c, z);
    S.SplitTurn(c.nb, z.s, t);
    var first := S.SendingTurn(c.nb, z.s, t.(arrivals := []));
    var second := S.SendingTurn(c.nb, first.s, t.(rto := false));
    var y := StepSender(c, z, t.(arrivals := []));
    SendingGoesOn(c, z, t.(arrivals := []), first);
    SplitSent(c, z, y, t, first, second);
  }

  lemma SplitSent(c: Config, z: System, y: System, t: Turn, first: S.Move, second: S.Move)
    requires y == z.(s := first.s, toR := z.toR + Sending(first.out)) && z.s.phase.Sending? && first.s.phase.Sending?
    requires S.SendingTurn(c.nb, z.s, t) == S.Move(second.s, first.out + second.out)
    requires second == S.SendingTurn(c.nb, first.s, t.(rto := false))
    ensures StepSender(c, y, t.(rto := false)) == StepSender(c, z, t)
  {
    var k := SenderProgram(c, second);
    ProgramAppends(c, second, first.out);
    StepSenderIs(c, y, t.(rto := false), second, k);
    StepSenderIs(c, z, t, S.Move(second.s, first.out + second.out), S.Move(k.s, first.out + k.out));
    assert Sending(first.out + k.out) == Sending(first.out) + Sending(k.out);
  }

  // ---------------------------------------------------------------- what a timeout sends

  /** After the fill loop something is outstanding, and a turn whose timer has run out sends all of it. */
  lemma TimeoutResendsWindow(c: Config, z: System, t: Turn, k: int)
    requires Keyed(c) && Inv(c, z) && z.s.phase.Sending? && t.rto
    ensures var m := S.FillWindow(z.s, t.rto);
            && z.s.base < m.s.next
            && (z.s.base <= k < m.s.next ==> k in c.packets && c.packets[k] in m.out)
  {
    FillShape(c, z, t.rto);
    assert Good(z.s.cong);
  }

  // ---------------------------------------------------------------- a window delivered

  /** The receiver has packet `k`. */
  predicate Covered(c: Config, z: System, k: int) {
    k < Expected(c, z) || k + Shift(c) in z.r.dataMap
  }

  /** A number that the receiver's base lets it take as new: any, unless its seq_base was left too high. */
  predicate Takes(c: Config, k: int) {
    Shift(c) == 0 || k < WIRE
  }

  ghost predicate Active(c: Config, z: System) {
    Inv(c, z) && z.s.phase.Sending? && z.r.phase.Receiving?
  }

  /** The ACK for the number just below the one expected. */
  function LastAck(c: Config, z: System): Packet {
    Header(Encode(c.nb, Expected(c, z) - 1), RTP_ACK)
  }

  predicate Acknowledged(c: Config, z: System) {
    LastAck(c, z) in z.toS
  }

  ghost predicate KeepsCovered(c: Config, z: System, y: System) {
    forall j :: Covered(c, z, j) ==> Covered(c, y, j)
  }

  lemma DeliveryShape(c: Config, z: System, t: Turn, p: Packet) returns (r: R.Receiver)
    requires Active(c, z) && !t.late && FirstOf(RTP_DAT, t.arrivals) == Some(p)
    ensures r == z.r.(fin := r.fin) && StepReceiver(c, z, t) == DataStep(c, z, r, p)
  {
    ReadUntilHit(c.nb, z.r.seqBase, true, z.r.fin, RTP_DAT, t.arrivals);
    r := z.r.(fin := ReadUntil(c.nb, z.r.seqBase, true, z.r.fin, RTP_DAT, t.arrivals).fin);
  }

  lemma DataStepActive(c: Config, z: System, r: R.Receiver, p: Packet)
    requires Active(c, z) && r == z.r.(fin := r.fin) && Inv(c, DataStep(c, z, r, p))
    ensures var y := DataStep(c, z, r, p); Active(c, y) && y.s == z.s && y.toR == z.toR
  {
  }

  lemma StoreCovers(c: Config, z: System, r: R.Receiver, k: int)
    requires InRange(c) && Keyed(c) && Active(c, z) && r == z.r.(fin := r.fin)
    requires c.x + 1 <= k < End(c) && Takes(c, k)
    ensures Covered(c, DataStep(c, z, r, c.packets[k]), k)
    ensures KeepsCovered(c, z, DataStep(c, z, r, c.packets[k]))
  {
    assert IsData(c, c.packets[k], k);
    Numbers(c);
    StoreKeepsCovered(c, z, r, c.packets[k]);
  }

  lemma StoreKeepsCovered(c: Config, z: System, r: R.Receiver, p: Packet)
    requires r == z.r.(fin := r.fin)
    ensures KeepsCovered(c, z, DataStep(c, z, r, p))
  {
  }

  lemma DataStepAcks(c: Config, z: System, r: R.Receiver, p: Packet)
    requires InRange(c) && Active(c, z) && r == z.r.(fin := r.fin) && Inv(c, DataStep(c, z, r, p))
    ensures Acknowledged(c, DataStep(c, z, r, p))
  {
    Numbers(c);
    var y, m := DataStep(c, z, r, p), R.OnData(c.nb, r, p);
    var e := m.r.recvBase - Shift(c) - 1;
    assert m.out[0] in Sending(m.out);
    assert LastAck(c, y) == m.out[0];
  }

  /** One delivery to a receiver in its loop: the receiver goes on, covers the packet read, and acknowledges the
      number just below the one it now expects. */
  lemma DeliveryCovers(c: Config, z: System, t: Turn, k: int)
    requires Valid(c) && Keyed(c) && Active(c, z)
    requires Enabled(z, ReceiverTurn(t)) && !t.late
    requires c.x + 1 <= k < End(c) && Takes(c, k) && FirstOf(RTP_DAT, t.arrivals) == Some(c.packets[k])
    ensures var y := StepReceiver(c, z, t);
            && Active(c, y) && y.s == z.s && y.toR == z.toR
            && Covered(c, y, k)
            && KeepsCovered(c, z, y)
            && Acknowledged(c, y)
  {
    ReceiverStepKeeps(c, z, t);
    var r := DeliveryShape(c, z, t, c.packets[k]);
    DataStepActive(c, z, r, c.packets[k]);
    StoreCovers(c, z, r, k);
    DataStepAcks(c, z, r, c.packets[k]);
  }

  /** The k-th turn of `turns` reads the packet numbered `numbers[k]`. */
  ghost predicate Deliver(c: Config, turns: seq<Turn>, numbers: seq<int>) {
    && |turns| == |numbers|
    && forall i :: 0 <= i < |turns| ==> Reads(c, turns[i], numbers[i])
  }

  ghost predicate Reads(c: Config, t: Turn, k: int) {
    && !t.late && c.x + 1 <= k < End(c) && k in c.packets && FirstOf(RTP_DAT, t.arrivals) == Some(c.packets[k])
  }

  function ReceiverLabels(turns: seq<Turn>): (labels: seq<Label>)
    ensures |labels| == |turns|
  {
    seq(|turns|, i requires 0 <= i < |turns| => ReceiverTurn(turns[i]))
  }

  lemma ReceiverLabelsThen(turns: seq<Turn>)
    requires |turns| > 0
    ensures ReceiverLabels(turns) == ReceiverLabels(turns[..|turns| - 1]) + [ReceiverTurn(turns[|turns| - 1])]
  {
  }

  lemma ExecBeforeLast(c: Config, z: System, labels: seq<Label>, l: Label)
    requires Allowed(c, z, labels + [l])
    ensures Allowed(c, z, labels) && Enabled(Exec(c, z, labels), l)
    ensures Exec(c, z, labels + [l]) == Step(c, Exec(c, z, labels), l)
  {
    assert (labels + [l])[..|labels|] == labels;
  }

  ghost predicate AllCovered(c: Config, z: System, numbers: seq<int>) {
    forall i :: 0 <= i < |numbers| ==> Covered(c, z, numbers[i])
  }

  ghost predicate TakesAll(c: Config, numbers: seq<int>) {
    forall i :: 0 <= i < |numbers| ==> Takes(c, numbers[i])
  }

  lemma DeliverFront(c: Config, turns: seq<Turn>, numbers: seq<int>, n: nat)
    requires Deliver(c, turns, numbers) && TakesAll(c, numbers) && |turns| == n + 1
    ensures Deliver(c, turns[..n], numbers[..n]) && TakesAll(c, numbers[..n])
    ensures Reads(c, turns[n], numbers[n]) && Takes(c, numbers[n])
  {
  }

  /** After any deliveries, in any order and with any repetition, every number delivered is covered and the last
      ACK is for the number just below the one expected. */
  lemma {:induction false} DeliveriesCover(c: Config, z: System, turns: seq<Turn>, numbers: seq<int>)
    returns (y: System)
    requires Valid(c) && Keyed(c) && Active(c, z) && Allowed(c, z, ReceiverLabels(turns))
    requires Deliver(c, turns, numbers) && TakesAll(c, numbers)
    ensures y == Exec(c, z, ReceiverLabels(turns))
    ensures Active(c, y) && y.s == z.s && y.toR == z.toR && AllCovered(c, y, numbers)
    ensures |turns| > 0 ==> Acknowledged(c, y)
    decreases |turns|
  {
    y := z;
    if |turns| > 0 {
      var n := |turns| - 1;
      ReceiverLabelsThen(turns);
      ExecBeforeLast(c, z, ReceiverLabels(turns[..n]), ReceiverTurn(turns[n]));
      DeliverFront(c, turns, numbers, n);
      var w := DeliveriesCover(c, z, turns[..n], numbers[..n]);
      y := OneMoreDelivery(c, w, turns[n], numbers);
    }
  }

  lemma OneMoreDelivery(c: Config, w: System, t: Turn, numbers: seq<int>) returns (y: System)
    requires Valid(c) && Keyed(c) && Active(c, w) && Enabled(w, ReceiverTurn(t))
    requires |numbers| > 0 && AllCovered(c, w, numbers[..|numbers| - 1])
    requires Reads(c, t, numbers[|numbers| - 1]) && Takes(c, numbers[|numbers| - 1])
    ensures y == StepReceiver(c, w, t)
    ensures Active(c, y) && y.s == w.s && y.toR == w.toR && AllCovered(c, y, numbers) && Acknowledged(c, y)
  {
    DeliveryCovers(c, w, t, numbers[|numbers| - 1]);
    y := StepReceiver(c, w, t);
    StillCovered(c, w, y, numbers);
  }

  lemma StillCovered(c: Config, z: System, y: System, numbers: seq<int>)
    requires |numbers| > 0 && AllCovered(c, z, numbers[..|numbers| - 1])
    requires KeepsCovered(c, z, y) && Covered(c, y, numbers[|numbers| - 1])
    ensures AllCovered(c, y, numbers)
  {
    forall i | 0 <= i < |numbers| ensures Covered(c, y, numbers[i]) {
      if i < |numbers| - 1 {
        assert Covered(c, z, numbers[..|numbers| - 1][i]);
      }
    }
  }

  /** A receiver in its loop that covers every number of a window expects none of them. */
  lemma CoveredIsExpected(c: Config, z: System, numbers: seq<int>, to: int)
    requires Active(c, z) && AllCovered(c, z, numbers)
    requires Spans(numbers, Base(c, z), to)
    ensures to <= Expected(c, z)
  {
    if Expected(c, z) < to {
      CoveredAt(c, z, numbers, Expected(c, z));
      assert false;
    }
  }

  lemma CoveredAt(c: Config, z: System, numbers: seq<int>, k: int)
    requires AllCovered(c, z, numbers) && k in numbers
    ensures Covered(c, z, k)
  {
  }

  // ---------------------------------------------------------------- taking the last ACK

  /** A turn of the send loop that reads the ACK for `k` moves the base just past `k`, unless it is there already. */
  lemma AckMovesBase(c: Config, z: System, t: Turn, k: int)
    requires Valid(c) && Keyed(c) && Active(c, z) && Enabled(z, SenderTurn(t)) && !t.late
    requires c.x <= k < Expected(c, z) && FirstOf(RTP_ACK, t.arrivals) == Some(Header(Encode(c.nb, k), RTP_ACK))
    ensures Base(c, StepSender(c, z, t)) == AtLeast(Base(c, z), k + 1)
  {
    var m := S.SendingTurn(c.nb, z.s, t);
    SendingTurnShape(c, z, t, m);
    SendingStepShape(c, z, t, m);
    AckMoves(c, S.FillWindow(z.s, t.rto).s, t.arrivals, k);
  }

  lemma AckMoves(c: Config, s: S.Sender, arrivals: seq<Packet>, k: int)
    requires InRange(c) && s.seqBase == c.x && c.x <= k < End(c)
    requires FirstOf(RTP_ACK, arrivals) == Some(Header(Encode(c.nb, k), RTP_ACK))
    ensures S.AwaitAck(c.nb, s, arrivals).s.base == AtLeast(s.base, k + 1)
  {
    Numbers(c);
    ReadUntilHit(c.nb, s.seqBase, true, s.fin, RTP_ACK, arrivals);
  }

  // ---------------------------------------------------------------- rounds

  /** A timeout resend of the whole window, its delivery, and the receipt of the last ACK. */
  datatype Round = Round(send: Turn, deliveries: seq<Turn>, take: Turn)

  function RoundLabels(round: Round): seq<Label> {
    [SenderTurn(round.send)] + ReceiverLabels(round.deliveries) + [SenderTurn(round.take)]
  }

  ghost predicate DeliversWindow(c: Config, deliveries: seq<Turn>, from: int, to: int) {
    exists numbers :: Deliver(c, deliveries, numbers) && Spans(numbers, from, to)
  }

  ghost predicate Spans(numbers: seq<int>, from: int, to: int) {
    forall k :: from <= k < to ==> k in numbers
  }

  /** From `z`, the round resends after a timeout, delivers everything outstanding in any order, and takes the last
      ACK. */
  ghost predicate Complete(c: Config, z: System, round: Round) {
    var y := StepSender(c, z, round.send);
    CompleteVia(c, z, y, Exec(c, y, ReceiverLabels(round.deliveries)), round)
  }

  ghost predicate CompleteVia(c: Config, z: System, y: System, w: System, round: Round) {
    && z.s.phase.Sending? && z.r.phase.Receiving? && !round.send.late && round.send.rto && y.s.phase.Sending?
    && DeliversWindow(c, round.deliveries, y.s.base, y.s.next)
    && !round.take.late && FirstOf(RTP_ACK, round.take.arrivals) == Some(LastAck(c, w))
  }

  /** What makes every number of the transfer acceptable to the receiver: its seq_base was not left above x, or
      the transfer does not pass 2^30. */
  predicate Completable(c: Config) {
    c.nb.Unbounded? || c.r0.seqBase <= c.x || End(c) <= WIRE
  }

  lemma RoundRun(c: Config, z: System, round: Round) returns (y: System, w: System)
    requires Allowed(c, z, RoundLabels(round))
    ensures y == StepSender(c, z, round.send) && w == Exec(c, y, ReceiverLabels(round.deliveries))
    ensures Enabled(z, SenderTurn(round.send)) && Allowed(c, y, ReceiverLabels(round.deliveries))
    ensures Enabled(w, SenderTurn(round.take))
    ensures Exec(c, z, RoundLabels(round)) == StepSender(c, w, round.take)
    ensures Complete(c, z, round) ==> CompleteVia(c, z, y, w, round)
  {
    var first, middle, last := [SenderTurn(round.send)], ReceiverLabels(round.deliveries), [SenderTurn(round.take)];
    ExecAppend(c, z, first + middle, last);
    ExecAppend(c, z, first, middle);
    ExecOne(c, z, first[0]);
    y := StepSender(c, z, round.send);
    w := Exec(c, y, middle);
    ExecOne(c, w, last[0]);
  }

  lemma SendTurnActive(c: Config, z: System, t: Turn)
    requires Valid(c) && Keyed(c) && Inv(c, z) && z.s.phase.Sending? && z.r.phase.Receiving? && !t.late
    requires Enabled(z, SenderTurn(t))
    ensures var y := StepSender(c, z, t);
            && Inv(c, y) && y.r.phase.Receiving?
            && (y.s.phase.Sending? ==> Active(c, y) && z.s.base <= y.s.base <= y.s.next && z.s.base < y.s.next)
  {
    SenderStepKeeps(c, z, t);
    var m := S.SendingTurn(c.nb, z.s, t);
    SendingTurnShape(c, z, t, m);
    SendingStepShape(c, z, t, m);
  }

  /** After the deliveries of a round the receiver expects exactly what the sender would send next. */
  lemma WindowDelivered(c: Config, y: System, deliveries: seq<Turn>, numbers: seq<int>)
    requires Valid(c) && Keyed(c) && Completable(c) && Active(c, y) && y.s.base <= y.s.next
    requires Allowed(c, y, ReceiverLabels(deliveries))
    requires Deliver(c, deliveries, numbers) && Spans(numbers, y.s.base, y.s.next)
    ensures var w := Exec(c, y, ReceiverLabels(deliveries));
            Active(c, w) && w.s == y.s && Expected(c, w) == y.s.next
            && (y.s.base < y.s.next ==> Acknowledged(c, w))
  {
    assert y.s.base < y.s.next ==> y.s.base in numbers;
    assert TakesAll(c, numbers) by {
      forall i | 0 <= i < |numbers| ensures Takes(c, numbers[i]) {
        assert Reads(c, deliveries[i], numbers[i]);
      }
    }
    var w := DeliveriesCover(c, y, deliveries, numbers);
    CoveredIsExpected(c, w, numbers, y.s.next);
  }

  /** A complete round moves the base to the `next` of its resend, so at least one packet fewer remains. */
  lemma RoundProgress(c: Config, z: System, round: Round)
    requires Valid(c) && Completable(c) && Inv(c, z)
    requires Allowed(c, z, RoundLabels(round)) && Complete(c, z, round)
    ensures Base(c, Exec(c, z, RoundLabels(round))) == StepSender(c, z, round.send).s.next
    ensures Remaining(c, Exec(c, z, RoundLabels(round))) < Remaining(c, z)
  {
    PackedIsKeyed(c);
    var y, w := RoundRun(c, z, round);
    SendTurnActive(c, z, round.send);
    var numbers :| Deliver(c, round.deliveries, numbers) && Spans(numbers, y.s.base, y.s.next);
    WindowDelivered(c, y, round.deliveries, numbers);
    LastAckMovesBase(c, w, round.take);
  }

  lemma LastAckMovesBase(c: Config, w: System, t: Turn)
    requires Valid(c) && Keyed(c) && Active(c, w) && Enabled(w, SenderTurn(t)) && !t.late
    requires FirstOf(RTP_ACK, t.arrivals) == Some(LastAck(c, w))
    ensures Base(c, StepSender(c, w, t)) == Expected(c, w)
  {
    AckMovesBase(c, w, t, Expected(c, w) - 1);
  }

  // ---------------------------------------------------------------- any number of rounds

  /** Anything at all, and then a complete round. */
  datatype Stretch = Stretch(between: seq<Label>, round: Round)

  function StretchLabels(stretches: seq<Stretch>): seq<Label>
    decreases |stretches|
  {
    if |stretches| == 0 then [] else
      var last := stretches[|stretches| - 1];
      StretchLabels(stretches[..|stretches| - 1]) + last.between + RoundLabels(last.round)
  }

  ghost predicate AllComplete(c: Config, z: System, stretches: seq<Stretch>)
    decreases |stretches|
  {
    |stretches| == 0 ||
    var front, last := stretches[..|stretches| - 1], stretches[|stretches| - 1];
    AllComplete(c, z, front) && Complete(c, Exec(c, z, StretchLabels(front) + last.between), last.round)
  }

  /** Every complete round of a run is worth a packet, whatever happens between them. */
  lemma {:induction false} RoundsProgress(c: Config, z: System, stretches: seq<Stretch>)
    requires Valid(c) && Completable(c) && Inv(c, z)
    requires Allowed(c, z, StretchLabels(stretches)) && AllComplete(c, z, stretches)
    ensures Inv(c, Exec(c, z, StretchLabels(stretches)))
    ensures Remaining(c, Exec(c, z, StretchLabels(stretches))) <= Remaining(c, z) - |stretches|
    decreases |stretches|
  {
    RemainingNeverRises(c, z, StretchLabels(stretches));
    if |stretches| > 0 {
      var front, last := stretches[..|stretches| - 1], stretches[|stretches| - 1];
      var before := StretchLabels(front) + last.between;
      ExecAppend(c, z, before, RoundLabels(last.round));
      ExecAppend(c, z, StretchLabels(front), last.between);
      RoundsProgress(c, z, front);
      RemainingNeverRises(c, Exec(c, z, StretchLabels(front)), last.between);
      RoundProgress(c, Exec(c, z, before), last.round);
    }
  }

  /** No run has more complete rounds than the file has packets, and one with that many has left the send loop. */
  lemma {:induction false} RoundsFinish(c: Config, stretches: seq<Stretch>)
    requires Valid(c) && Completable(c)
    requires Allowed(c, Init(c), StretchLabels(stretches)) && AllComplete(c, Init(c), stretches)
    ensures |stretches| <= c.total
    ensures |stretches| == c.total ==>
              var z := Exec(c, Init(c), StretchLabels(stretches)); Base(c, z) == End(c) && !z.s.phase.Sending?
  {
    InitInv(c);
    RoundsProgress(c, Init(c), stretches);
  }
}
