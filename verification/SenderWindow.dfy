/** The send loop against its congestion window, whatever arrives: any peer, any ACKs, any timeouts. */
module SenderWindow {
  import opened SequenceNumbers
  import opened Packets
  import opened Segmentation
  import opened Congestion
  import opened SenderSide

  /** The send loop as send_file_gbn enters it for the first transfer, with every packet of the file in the map. */
  ghost predicate FirstTransfer(s: Sender) {
    s.phase.Sending? && s.cong == INITIAL && s.base == s.next <= s.highest && Stocked(s)
  }

  ghost predicate Stocked(s: Sender) {
    forall k :: s.base <= k <= s.highest ==> k in s.dataMap
  }

  /** The largest window of a run. */
  function Peak(nb: Numbering, s: Sender, turns: seq<Turn>): real
    decreases |turns|
  {
    if |turns| == 0 then s.cong.cwnd
    else Max(Peak(nb, s, turns[..|turns| - 1]), Run(nb, s, turns).s.cong.cwnd)
  }

  ghost predicate WindowOk(s: Sender, first: int, peak: real) {
    && Stocked(s) && (s.phase.Sending? ==> s.base <= s.highest)
    && Good(s.cong) && first <= s.base && s.cong.cwnd <= peak
    && s.cong.cwnd <= 6.0 + (s.base - first) as real
    && (s.next - s.base) as real < 1.0 + peak
  }

  lemma FillKeeps(s: Sender, rto: bool, first: int, peak: real)
    requires WindowOk(s, first, peak)
    ensures WindowOk(FillWindow(s, rto).s, first, peak)
  {
    var n := FillTo(s.base, s.next, s.highest, s.cong.cwnd);
    if n > s.next {
      assert (n - 1) as real < s.base as real + s.cong.cwnd;
      assert (n - s.base) as real < 1.0 + s.cong.cwnd;
    }
    ReactKeeps(s.cong, Timeout);
  }

  lemma AckKeeps(s: Sender, ack: int, first: int, peak: real)
    requires WindowOk(s, first, peak) && s.phase.Sending?
    ensures var y := OnAck(s, ack).s;
            WindowOk(y.(phase := if y.base <= y.highest then Sending else Sent), first, Max(peak, y.cong.cwnd))
  {
    if ack + 1 > s.base {
      ReactKeeps(s.cong, NewAck);
      assert (ack + 1 - first) as real >= (s.base - first) as real + 1.0;
    } else if ack + 1 == s.base {
      ReactKeeps(s.cong, DupAck);
    }
  }

  lemma TurnKeeps(nb: Numbering, s: Sender, t: Turn, first: int, peak: real)
    requires WindowOk(s, first, peak)
    requires s.phase.Sending? || s.phase.Sent? || s.phase.Failed?
    ensures var y := Iterate(nb, s, t).s;
            && (y.phase.Sending? || y.phase.Sent? || y.phase.Failed?)
            && WindowOk(y, first, Max(peak, y.cong.cwnd))
  {
    if s.phase.Sending? && !t.late {
      FillKeeps(s, t.rto, first, peak);
      AwaitKeeps(nb, FillWindow(s, t.rto).s, t.arrivals, first, peak);
    }
  }

  lemma AwaitKeeps(nb: Numbering, s: Sender, arrivals: seq<Packet>, first: int, peak: real)
    requires WindowOk(s, first, peak) && s.phase.Sending?
    ensures var y := AwaitAck(nb, s, arrivals).s; WindowOk(y, first, Max(peak, y.cong.cwnd))
  {
    var r := ReadUntil(nb, s.seqBase, true, s.fin, RTP_ACK, arrivals);
    if r.hit.Some? {
      AckKeeps(s.(fin := r.fin), Decode(nb, s.seqBase, r.hit.value.number), first, peak);
    }
  }

  lemma {:induction false} RunWindowOk(nb: Numbering, s: Sender, turns: seq<Turn>)
    requires FirstTransfer(s)
    ensures var y := Run(nb, s, turns).s;
            && (y.phase.Sending? || y.phase.Sent? || y.phase.Failed?)
            && WindowOk(y, s.base, Peak(nb, s, turns))
    decreases |turns|
  {
    if |turns| > 0 {
      var front := turns[..|turns| - 1];
      RunWindowOk(nb, s, front);
      TurnKeeps(nb, Run(nb, s, front).s, turns[|turns| - 1], s.base, Peak(nb, s, front));
    }
  }

  /** Over a whole first transfer the window is at most 6 plus the packets acknowledged so far, and what is
      outstanding stays below 1 plus the largest window of the run; a timeout resends more than `cwnd`, but never
      more than that. */
  lemma WholeTransferWindow(nb: Numbering, s: Sender, turns: seq<Turn>)
    requires FirstTransfer(s)
    ensures var y := Run(nb, s, turns).s;
            && 1.0 <= y.cong.cwnd <= 6.0 + (y.base - s.base) as real
            && (y.next - y.base) as real < 1.0 + Peak(nb, s, turns)
            && !InflationBranch(y.cong)
  {
    RunWindowOk(nb, s, turns);
  }

  // ---------------------------------------------------------------- what drives the window

  /** The number acknowledged by the ACK that a turn reads, if it reads one. */
  function AckNumber(nb: Numbering, seqBase: int, t: Turn): Option<int> {
    var ack := FirstOf(RTP_ACK, t.arrivals);
    if ack.Some? then Some(Decode(nb, seqBase, ack.value.number)) else None
  }

  /** The least number not acknowledged, told by the ACKs alone: one past the greatest number acknowledged, up to the
      turn that completes the transfer. */
  function BaseAfter(nb: Numbering, seqBase: int, base: int, highest: int, turns: seq<Turn>): int
    decreases |turns|
  {
    if |turns| == 0 then base else
      var b := BaseAfter(nb, seqBase, base, highest, turns[..|turns| - 1]);
      var ack := AckNumber(nb, seqBase, turns[|turns| - 1]);
      if b <= highest && ack.Some? && ack.value >= b then ack.value + 1 else b
  }

  /** What one turn tells the congestion control: a timeout first, then the ACK, by its distance from the base. */
  function TurnSignals(base: int, ack: Option<int>, rto: bool): seq<Signal> {
    (if rto then [Timeout] else [])
    + if ack.None? || ack.value < base - 1 then [] else if ack.value == base - 1 then [DupAck] else [NewAck]
  }

  /** The timeouts, duplicate and new ACKs of a transfer, told by its turns alone. */
  function Signals(nb: Numbering, seqBase: int, base: int, highest: int, turns: seq<Turn>): seq<Signal>
    decreases |turns|
  {
    if |turns| == 0 then [] else
      var front, last := turns[..|turns| - 1], turns[|turns| - 1];
      var b := BaseAfter(nb, seqBase, base, highest, front);
      Signals(nb, seqBase, base, highest, front)
      + if b <= highest then TurnSignals(b, AckNumber(nb, seqBase, last), last.rto) else []
  }

  ghost predicate InTime(turns: seq<Turn>) {
    forall t :: t in turns ==> !t.late
  }

  /** One ACK. A duplicate of a packet that is there counts as DupAck; the third one, and every one after it,
      repeats that packet, and nothing else is ever sent for an ACK. */
  lemma AckDrives(s: Sender, ack: int)
    requires Good(s.cong) && s.base in s.dataMap
    ensures var m := OnAck(s, ack);
            && m.s.cong == Replay(s.cong, TurnSignals(s.base, Some(ack), false))
            && m.s.base == (if ack >= s.base then ack + 1 else s.base)
            && m.s.lastAck == (if ack >= s.base then ack else s.lastAck)
            && m.out == if ack == s.base - 1 && s.cong.dup >= 2 then [s.dataMap[s.base]] else []
  {
    Replay1(s.cong, NewAck);
    Replay1(s.cong, DupAck);
    assert [] + [NewAck] == [NewAck] && [] + [DupAck] == [DupAck];
    StoredExactly(s.dataMap, s.base, s.base + 1);
  }

  lemma Replay1(c: Cong, signal: Signal)
    requires Good(c)
    ensures Replay(c, [signal]) == React(c, signal) && Replay(c, []) == c
  {
    assert [signal][..0] == [];
  }

  /** Without the packet in the map, duplicate ACKs are counted and do nothing else. */
  lemma AckWithoutPacket(s: Sender)
    requires Good(s.cong) && s.base !in s.dataMap
    ensures var m := OnAck(s, s.base - 1);
            && m.out == [] && m.s == s.(cong := m.s.cong) && m.s.cong.dup == (if s.cong.fast then 3 else s.cong.dup + 1)
            && m.s.cong == s.cong.(dup := m.s.cong.dup)
  {
    assert Stored(s.dataMap, s.base, s.base) == [];
    assert Stored(s.dataMap, s.base, s.base + 1) == [] + [];
  }

  /** The first half of a turn fills the window, all of it, and a timeout sends all of it again. */
  lemma FillDrives(s: Sender, rto: bool)
    requires Good(s.cong) && s.base <= s.highest && forall k :: s.base <= k <= s.highest ==> k in s.dataMap
    ensures var m := FillWindow(s, rto);
            && (m.s.next > s.highest || m.s.next as real >= s.base as real + s.cong.cwnd)
            && (m.s.next > s.next ==>
                  m.s.next <= s.highest + 1 && m.s.next as real < s.base as real + s.cong.cwnd + 1.0)
            && s.next <= m.s.next && m.s == s.(next := m.s.next, cong := m.s.cong)
            && m.s.cong == Replay(s.cong, TurnSignals(s.base, None, rto))
  {
    Replay1(s.cong, Timeout);
    assert [Timeout] + [] == [Timeout];
  }

  /** One turn of the loop: its state is told by what it reads. */
  lemma TurnDrives(nb: Numbering, s: Sender, t: Turn)
    requires s.phase.Sending? && !t.late && Good(s.cong) && s.base <= s.highest && Stocked(s)
    ensures var y, ack := SendingTurn(nb, s, t).s, AckNumber(nb, s.seqBase, t);
            && y.base == (if ack.Some? && ack.value >= s.base then ack.value + 1 else s.base)
            && y.lastAck == (if y.base == s.base then s.lastAck else y.base - 1)
            && y.cong == Replay(s.cong, TurnSignals(s.base, ack, t.rto))
            && y.phase == (if y.base <= y.highest then Sending else Sent)
            && y.seqBase == s.seqBase && y.highest == s.highest && y.dataMap == s.dataMap
            && s.next <= y.next && (s.next <= s.highest + 1 ==> y.next <= s.highest + 1)
            && y.fin == ReadUntil(nb, s.seqBase, true, s.fin, RTP_ACK, t.arrivals).fin
  {
    var f := FillWindow(s, t.rto).s;
    FillDrives(s, t.rto);
    ReadUntilHit(nb, f.seqBase, true, f.fin, RTP_ACK, t.arrivals);
    var q := ReadUntil(nb, f.seqBase, true, f.fin, RTP_ACK, t.arrivals);
    var ack := AckNumber(nb, s.seqBase, t);
    if ack.Some? {
      AckDrives(f.(fin := q.fin), ack.value);
      ReplayAppend(s.cong, TurnSignals(s.base, None, t.rto), TurnSignals(s.base, ack, false));
      TimeoutThenAck(s.base, ack, t.rto);
    }
  }

  lemma TimeoutThenAck(base: int, ack: Option<int>, rto: bool)
    ensures TurnSignals(base, ack, rto) == TurnSignals(base, None, rto) + TurnSignals(base, ack, false)
  {
  }

  /** In the middle of a transfer, and after it. */
  ghost predicate Driven(nb: Numbering, s: Sender, turns: seq<Turn>, y: Sender) {
    && y.base == BaseAfter(nb, s.seqBase, s.base, s.highest, turns)
    && y.cong == Replay(INITIAL, Signals(nb, s.seqBase, s.base, s.highest, turns))
    && y.lastAck == (if y.base == s.base then s.lastAck else y.base - 1)
    && y.phase == (if y.base <= y.highest then Sending else Sent)
    && y.seqBase == s.seqBase && y.highest == s.highest && y.dataMap == s.dataMap
    && s.base <= y.base && s.base <= y.next <= s.highest + 1
  }

  lemma SignalsNext(nb: Numbering, s: Sender, turns: seq<Turn>, front: seq<Turn>, t: Turn)
    requires |turns| > 0 && front == turns[..|turns| - 1] && t == turns[|turns| - 1]
    ensures var b := BaseAfter(nb, s.seqBase, s.base, s.highest, front);
            var ack := AckNumber(nb, s.seqBase, t);
            && BaseAfter(nb, s.seqBase, s.base, s.highest, turns)
               == (if b <= s.highest && ack.Some? && ack.value >= b then ack.value + 1 else b)
            && Signals(nb, s.seqBase, s.base, s.highest, turns)
               == Signals(nb, s.seqBase, s.base, s.highest, front)
                  + if b <= s.highest then TurnSignals(b, ack, t.rto) else []
  {
  }

  lemma DrivenOn(nb: Numbering, s: Sender, turns: seq<Turn>, front: seq<Turn>, y: Sender, t: Turn)
    requires |turns| > 0 && front == turns[..|turns| - 1] && t == turns[|turns| - 1]
    requires FirstTransfer(s) && Driven(nb, s, front, y) && !t.late && y.phase.Sending?
    ensures Driven(nb, s, turns, SendingTurn(nb, y, t).s)
  {
    SignalsNext(nb, s, turns, front, t);
    TurnDrives(nb, y, t);
    ReplayAppend(INITIAL, Signals(nb, s.seqBase, s.base, s.highest, front),
                 TurnSignals(y.base, AckNumber(nb, s.seqBase, t), t.rto));
  }

  lemma DrivenOver(nb: Numbering, s: Sender, turns: seq<Turn>, front: seq<Turn>, y: Sender, t: Turn)
    requires |turns| > 0 && front == turns[..|turns| - 1] && t == turns[|turns| - 1]
    requires Driven(nb, s, front, y) && y.phase.Sent?
    ensures Driven(nb, s, turns, y)
  {
    SignalsNext(nb, s, turns, front, t);
    var before := Signals(nb, s.seqBase, s.base, s.highest, front);
    assert before + [] == before;
  }

  lemma LoopTurn(nb: Numbering, s: Sender, t: Turn)
    ensures s.phase.Sending? ==> Iterate(nb, s, t) == SendingTurn(nb, s, t)
    ensures s.phase.Sent? ==> Iterate(nb, s, t) == Move(s, [])
  {
  }

  lemma RunLast(nb: Numbering, s: Sender, turns: seq<Turn>)
    requires |turns| > 0
    ensures Run(nb, s, turns).s == Iterate(nb, Run(nb, s, turns[..|turns| - 1]).s, turns[|turns| - 1]).s
  {
  }

  lemma DrivenPhase(nb: Numbering, s: Sender, turns: seq<Turn>, y: Sender)
    requires Driven(nb, s, turns, y)
    ensures y.phase.Sending? || y.phase.Sent?
  {
  }

  /** Against any peer, as long as the loop is not late: the window base, the last new ACK, the whole congestion state
      and the end of the loop are those of the ACKs and timeouts that the turns bring, read without the program. */
  lemma {:induction false} TransferDriven(nb: Numbering, s: Sender, turns: seq<Turn>)
    requires FirstTransfer(s) && InTime(turns)
    ensures Driven(nb, s, turns, Run(nb, s, turns).s)
    decreases |turns|
  {
    if |turns| > 0 {
      var front, last := turns[..|turns| - 1], turns[|turns| - 1];
      TransferDriven(nb, s, front);
      var y := Run(nb, s, front).s;
      DrivenPhase(nb, s, front, y);
      RunLast(nb, s, turns);
      LoopTurn(nb, y, last);
      if y.phase.Sending? {
        DrivenOn(nb, s, turns, front, y, last);
      } else {
        DrivenOver(nb, s, turns, front, y, last);
      }
    }
  }

  // ---------------------------------------------------------------- what a turn sends

  /** The packets from `next` up to `n`, then after a timeout all from `base` on. */
  function FillPackets(m: DataMap, base: int, next: int, n: int, rto: bool): seq<Packet>
    requires base < n && next <= n && forall k :: next <= k < n || base <= k < n ==> k in m
  {
    InARow(m, next, n) + if rto then InARow(m, base, n) else []
  }

  /** Those, and perhaps the packet at `base` once more. */
  function TurnPackets(m: DataMap, base: int, next: int, n: int, rto: bool, repeats: bool): seq<Packet>
    requires base < n && next <= n && forall k :: next <= k < n || base <= k < n ==> k in m
  {
    FillPackets(m, base, next, n, rto) + if repeats then [m[base]] else []
  }

  lemma FillSends(s: Sender, rto: bool, first: int) returns (n: int)
    requires Good(s.cong) && first <= s.base <= s.highest && first <= s.next <= s.highest + 1
    requires forall k :: first <= k <= s.highest ==> k in s.dataMap
    ensures s.base < n && s.next <= n <= s.highest + 1 && FillWindow(s, rto).s.next == n
    ensures n > s.highest || n as real >= s.base as real + s.cong.cwnd
    ensures n > s.next ==> n as real < s.base as real + s.cong.cwnd + 1.0
    ensures FillWindow(s, rto).out == FillPackets(s.dataMap, s.base, s.next, n, rto)
  {
    n := FillTo(s.base, s.next, s.highest, s.cong.cwnd);
    WindowFull(s.base, s.next, s.highest, s.cong.cwnd);
    StoredExactly(s.dataMap, s.next, n);
    StoredExactly(s.dataMap, s.base, n);
  }

  /** A turn that comes after `turns` reads a duplicate ACK, and it is at least the third in a row. */
  predicate Repeats(nb: Numbering, s: Sender, turns: seq<Turn>, t: Turn) {
    var base := BaseAfter(nb, s.seqBase, s.base, s.highest, turns);
    var ack := AckNumber(nb, s.seqBase, t);
    && ack == Some(base - 1)
    && Trailing(Signals(nb, s.seqBase, s.base, s.highest, turns) + TurnSignals(base, ack, t.rto)) >= 3
  }

  lemma AwaitSends(nb: Numbering, s: Sender, t: Turn)
    requires Good(s.cong) && s.base in s.dataMap
    ensures AwaitAck(nb, s, t.arrivals).out
         == if AckNumber(nb, s.seqBase, t) == Some(s.base - 1) && s.cong.dup >= 2 then [s.dataMap[s.base]] else []
  {
    ReadUntilHit(nb, s.seqBase, true, s.fin, RTP_ACK, t.arrivals);
    var ack := AckNumber(nb, s.seqBase, t);
    if ack.Some? {
      AckDrives(s.(fin := ReadUntil(nb, s.seqBase, true, s.fin, RTP_ACK, t.arrivals).fin), ack.value);
    }
  }

  lemma DuplicateTrails(before: seq<Signal>, base: int, rto: bool)
    ensures Trailing(before + TurnSignals(base, Some(base - 1), rto)) == 1 + if rto then 0 else Trailing(before)
  {
    var b := before + if rto then [Timeout] else [];
    assert before + TurnSignals(base, Some(base - 1), rto) == b + [DupAck];
    assert (b + [DupAck])[..|b|] == b;
  }

  lemma RepeatsAfter(before: seq<Signal>, base: int, ack: Option<int>, rto: bool)
    requires ack == Some(base - 1)
    ensures Trailing(before + TurnSignals(base, ack, rto)) >= 3 <==> !rto && Replay(INITIAL, before).dup >= 2
  {
    RecoveryExactly(before);
    DuplicateTrails(before, base, rto);
  }

  /** What the send loop knows of it: its base and its count of duplicates. */
  ghost predicate Knows(nb: Numbering, s: Sender, turns: seq<Turn>, base: int, dup: int) {
    && base == BaseAfter(nb, s.seqBase, s.base, s.highest, turns)
    && dup == Replay(INITIAL, Signals(nb, s.seqBase, s.base, s.highest, turns)).dup
  }

  lemma RepeatsExactly(nb: Numbering, s: Sender, turns: seq<Turn>, base: int, dup: int, t: Turn)
    requires Knows(nb, s, turns, base, dup)
    ensures Repeats(nb, s, turns, t) <==> AckNumber(nb, s.seqBase, t) == Some(base - 1) && !t.rto && dup >= 2
  {
    if AckNumber(nb, s.seqBase, t) == Some(base - 1) {
      RepeatsAfter(Signals(nb, s.seqBase, s.base, s.highest, turns), base, AckNumber(nb, s.seqBase, t), t.rto);
    }
  }

  lemma FilledState(s: Sender, rto: bool, n: int)
    requires Good(s.cong) && s.base < n && FillWindow(s, rto).s.next == n
    ensures var f := FillWindow(s, rto).s;
            f == s.(next := n, cong := f.cong) && Good(f.cong) && f.cong.dup == if rto then 0 else s.cong.dup
  {
    ReactKeeps(s.cong, Timeout);
  }

  lemma TwoHalves(nb: Numbering, s: Sender, t: Turn)
    requires !t.late
    ensures var f := FillWindow(s, t.rto);
            && SendingTurn(nb, s, t).out == f.out + AwaitAck(nb, f.s, t.arrivals).out
            && SendingTurn(nb, s, t).s.next == f.s.next
  {
  }

  /** What one turn of the loop sends. */
  lemma TurnOut(nb: Numbering, s: Sender, t: Turn, first: int) returns (n: int)
    requires s.phase.Sending? && !t.late && Good(s.cong) && first <= s.base <= s.highest
    requires first <= s.next <= s.highest + 1 && forall k :: first <= k <= s.highest ==> k in s.dataMap
    ensures s.base < n && s.next <= n <= s.highest + 1 && SendingTurn(nb, s, t).s.next == n
    ensures n > s.highest || n as real >= s.base as real + s.cong.cwnd
    ensures n > s.next ==> n as real < s.base as real + s.cong.cwnd + 1.0
    ensures var repeats := AckNumber(nb, s.seqBase, t) == Some(s.base - 1) && !t.rto && s.cong.dup >= 2;
            SendingTurn(nb, s, t).out == TurnPackets(s.dataMap, s.base, s.next, n, t.rto, repeats)
  {
    n := FillSends(s, t.rto, first);
    FilledState(s, t.rto, n);
    var f := FillWindow(s, t.rto).s;
    AwaitSends(nb, f, t);
    TwoHalves(nb, s, t);
  }

  /** The send loop in the middle of a first transfer, after `turns`. */
  ghost predicate Midway(nb: Numbering, s: Sender, turns: seq<Turn>, y: Sender) {
    && y.phase.Sending? && Good(y.cong) && s.base <= y.base <= y.highest == s.highest
    && s.base <= y.next <= s.highest + 1 && y.dataMap == s.dataMap && y.seqBase == s.seqBase
    && (forall k :: s.base <= k <= s.highest ==> k in y.dataMap)
    && Knows(nb, s, turns, y.base, y.cong.dup)
  }

  lemma RunMidway(nb: Numbering, s: Sender, turns: seq<Turn>)
    requires FirstTransfer(s) && InTime(turns) && Run(nb, s, turns).s.phase.Sending?
    ensures Midway(nb, s, turns, Run(nb, s, turns).s)
  {
    TransferDriven(nb, s, turns);
  }

  lemma MidwaySends(nb: Numbering, s: Sender, turns: seq<Turn>, y: Sender, t: Turn) returns (n: int)
    requires Midway(nb, s, turns, y) && !t.late
    ensures Sends(nb, y, t, n, Repeats(nb, s, turns, t))
  {
    RepeatsExactly(nb, s, turns, y.base, y.cong.dup, t);
    n := TurnOut(nb, y, t, s.base);
  }

  /** The turn `t` fills the window up to `n`, and sends just what belongs to that. */
  ghost predicate Sends(nb: Numbering, y: Sender, t: Turn, n: int, repeats: bool) {
    && y.base < n && y.next <= n <= y.highest + 1 && SendingTurn(nb, y, t).s.next == n
    && (n > y.highest || n as real >= y.base as real + y.cong.cwnd)
    && (n > y.next ==> n as real < y.base as real + y.cong.cwnd + 1.0)
    && (forall k :: y.next <= k < n || y.base <= k < n ==> k in y.dataMap)
    && SendingTurn(nb, y, t).out == TurnPackets(y.dataMap, y.base, y.next, n, t.rto, repeats)
  }

  /** What every turn of a first transfer sends, against any peer: the packets from `next` up to the end of the window,
      which it fills, in order and once each; after a timeout all that is outstanding; and the packet at the base when
      it reads the third duplicate ACK in a row, or a further one. */
  lemma TurnSends(nb: Numbering, s: Sender, turns: seq<Turn>, t: Turn) returns (n: int)
    requires FirstTransfer(s) && InTime(turns) && !t.late && Run(nb, s, turns).s.phase.Sending?
    ensures Run(nb, s, turns).s.dataMap == s.dataMap
    ensures Sends(nb, Run(nb, s, turns).s, t, n, Repeats(nb, s, turns, t))
  {
    RunMidway(nb, s, turns);
    n := MidwaySends(nb, s, turns, Run(nb, s, turns).s, t);
  }
}
