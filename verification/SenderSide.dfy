/** The sending endpoint, one loop iteration of connect, send_file_gbn and close at a time
    (src/rtp.cpp:271-391, 691-739, 803-971 and 496-558). */
module SenderSide {
  import opened SequenceNumbers
  import opened Packets
  import opened Segmentation
  import opened Congestion

  /** Where the program stands. `Connected` and `Sent` are the moments connect and send_file_gbn return 0;
      `Failed` is an error return or the exit inside LOG_FATAL. */
  datatype Phase = Connecting | Settling | Connected | Sending | Sent | Closing | Closed | Failed

  /** The fields of Rtp that the sender uses, and the locals of its loops:
      `isn` and `retry` of connect, `base`, `next` and `highest` of send_file_gbn. */
  datatype Sender = Sender(
    phase: Phase,
    isn: int, retry: int,
    seqBase: int, seqNum: int,
    base: int, next: int, highest: int,
    cong: Cong, lastAck: int,
    dataMap: DataMap,
    fin: Option<int>)

  /** A new state and the packets handed to the socket on the way, in order. */
  datatype Move = Move(s: Sender, out: seq<Packet>)

  const MAX_RETRY := 50

  // ---------------------------------------------------------------- connect

  /** The first lines of connect, with the random number already drawn. */
  function StartConnect(s: Sender, x: int): Move {
    Move(s.(phase := Connecting, isn := x, retry := 0, seqBase := x, fin := None), [Header(x, RTP_SYN)])
  }

  function ConnectingTurn(nb: Numbering, s: Sender, t: Turn): Move {
    var r := ReadUntil(nb, s.seqBase, true, s.fin, RTP_SYN_ACK, t.arrivals);
    var s1 := s.(fin := r.fin);
    if r.hit.Some? then
      if r.hit.value.number == Successor(nb, s.isn) then
        var seqBase := Decode(nb, s.seqBase, s.isn);
        Move(s1.(phase := Settling, seqBase := seqBase, seqNum := Decode(nb, seqBase, s.isn)),
             [Header(Successor(nb, s.isn), RTP_ACK)])
      else Move(s1, [])
    else if t.fault then Move(s1.(phase := Failed), [])
    else Move(s1.(retry := s.retry + 1, phase := if s.retry + 1 > MAX_RETRY then Failed else Connecting),
              [Header(s.isn, RTP_SYN)])
  }

  /** The two seconds after the handshake ACK, in which a repeated SYN&ACK is answered again. */
  function SettlingTurn(nb: Numbering, s: Sender, t: Turn): Move {
    if t.late then Move(s.(phase := Connected), []) else
      var r := ReadUntil(nb, s.seqBase, true, s.fin, RTP_SYN_ACK, t.arrivals);
      var s1 := s.(fin := r.fin);
      if r.hit.Some? then
        Move(s1, if r.hit.value.number == Successor(nb, s.isn) then [Header(Successor(nb, s.isn), RTP_ACK)] else [])
      else Move(if t.fault then s1.(phase := Failed) else s1, [])
  }

  // ---------------------------------------------------------------- send_file_gbn

  /** Entry of send_file_gbn; an empty file returns at once. */
  function StartSend(s: Sender, dataMap: DataMap, total: nat): Sender {
    s.(phase := if total == 0 then Sent else Sending, dataMap := dataMap,
       base := s.seqNum + 1, next := s.seqNum + 1, highest := s.seqNum + total)
  }

  /** The guard of the fill loop. */
  predicate InWindow(base: int, next: int, highest: int, cwnd: real) {
    next as real < base as real + cwnd && next <= highest
  }

  /** Where the fill loop stops: the first number outside the window or past the file. */
  function FillTo(base: int, next: int, highest: int, cwnd: real): (n: int)
    ensures next <= n
    ensures n > next ==> n <= highest + 1 && (n - 1) as real < base as real + cwnd
    ensures !InWindow(base, n, highest, cwnd)
    decreases highest - next + 1
  {
    if InWindow(base, next, highest, cwnd) then FillTo(base, next + 1, highest, cwnd) else next
  }

  /** The fill loop stops only past the file or with the window full. */
  lemma WindowFull(base: int, next: int, highest: int, cwnd: real)
    ensures var n := FillTo(base, next, highest, cwnd); n > highest || n as real >= base as real + cwnd
  {
  }

  lemma {:induction false} WindowEnds(base: int, next: int, k: int, highest: int, cwnd: real)
    requires next <= k <= FillTo(base, next, highest, cwnd)
    ensures InWindow(base, k, highest, cwnd) <==> k < FillTo(base, next, highest, cwnd)
    decreases k - next
  {
    if next < k {
      WindowEnds(base, next + 1, k, highest, cwnd);
    }
  }

  /** The packets stored under the keys from `lo` up to `hi`, in order. */
  function Stored(m: DataMap, lo: int, hi: int): (out: seq<Packet>)
    ensures forall p :: p in out ==> exists k :: lo <= k < hi && k in m && p == m[k]
    ensures forall k :: lo <= k < hi && k in m ==> m[k] in out
    decreases hi - lo
  {
    if hi <= lo then [] else Stored(m, lo, hi - 1) + if hi - 1 in m then [m[hi - 1]] else []
  }

  /** The packets under the keys from `lo` up to `hi`, which are all there, once each and in order. */
  function InARow(m: DataMap, lo: int, hi: int): (out: seq<Packet>)
    requires lo <= hi && forall k :: lo <= k < hi ==> k in m
    ensures |out| == hi - lo
  {
    seq(hi - lo, i requires 0 <= i < hi - lo => m[lo + i])
  }

  lemma InARowThen(m: DataMap, lo: int, hi: int)
    requires lo < hi && forall k :: lo <= k < hi ==> k in m
    ensures InARow(m, lo, hi) == InARow(m, lo, hi - 1) + [m[hi - 1]]
  {
  }

  lemma {:induction false} StoredOnce(m: DataMap, lo: int, hi: int)
    requires lo <= hi && forall k :: lo <= k < hi ==> k in m
    ensures |Stored(m, lo, hi)| == hi - lo
    decreases hi - lo
  {
    if lo < hi {
      StoredOnce(m, lo, hi - 1);
    }
  }

  lemma {:induction false} StoredExactly(m: DataMap, lo: int, hi: int)
    requires lo <= hi && forall k :: lo <= k < hi ==> k in m
    ensures Stored(m, lo, hi) == InARow(m, lo, hi)
    decreases hi - lo
  {
    if lo < hi {
      StoredExactly(m, lo, hi - 1);
      InARowThen(m, lo, hi);
    }
  }

  /** A duplicate ACK; a fast retransmit needs the packet to be `present`. */
  function CountDup(c: Cong, present: bool): Cong {
    if DupCount(c) == 3 && !present then c.(dup := 3) else OnDupAck(c)
  }

  /** What one received ACK does to the window, and the packet it makes the sender repeat. */
  function OnAck(s: Sender, ack: int): Move {
    if ack + 1 > s.base then Move(s.(base := ack + 1, lastAck := ack, cong := OnNewAck(s.cong)), [])
    else if ack + 1 == s.base then
      Move(s.(cong := CountDup(s.cong, s.base in s.dataMap)),
           if DupCount(s.cong) == 3 then Stored(s.dataMap, s.base, s.base + 1) else [])
    else Move(s, [])
  }

  /** The first half of an iteration: fill the window, then resend all of it if the timer has run out. */
  function FillWindow(s: Sender, rto: bool): Move {
    var filled := s.(next := FillTo(s.base, s.next, s.highest, s.cong.cwnd));
    var filling := Stored(s.dataMap, s.next, filled.next);
    if rto && filled.base < filled.next then
      Move(filled.(cong := OnTimeout(filled.cong)), filling + Stored(s.dataMap, filled.base, filled.next))
    else Move(filled, filling)
  }

  /** The second half: wait for an ACK, act on it, and look at the loop condition. */
  function AwaitAck(nb: Numbering, s: Sender, arrivals: seq<Packet>): Move {
    var r := ReadUntil(nb, s.seqBase, true, s.fin, RTP_ACK, arrivals);
    var waited := s.(fin := r.fin);
    var m := if r.hit.Some? then OnAck(waited, Decode(nb, s.seqBase, r.hit.value.number)) else Move(waited, []);
    Move(m.s.(phase := if m.s.base <= m.s.highest then Sending else Sent), m.out)
  }

  /** One iteration of the loop of send_file_gbn. */
  function SendingTurn(nb: Numbering, s: Sender, t: Turn): Move {
    if t.late then Move(s.(phase := Failed), []) else
      var filled := FillWindow(s, t.rto);
      var acked := AwaitAck(nb, filled.s, t.arrivals);
      Move(acked.s, filled.out + acked.out)
  }

  /** Filling a window that is full changes nothing. */
  lemma FillTwice(s: Sender, rto: bool)
    ensures FillWindow(FillWindow(s, rto).s, false) == Move(FillWindow(s, rto).s, [])
  {
  }

  /** Before it waits, a turn sends all it will send unless an ACK comes. So the turn is a turn that reads nothing,
      and then one that reads what arrives, also in answer to what the first has just sent. */
  lemma SplitTurn(nb: Numbering, s: Sender, t: Turn)
    requires s.phase.Sending? && s.base <= s.highest && !t.late
    ensures var first := SendingTurn(nb, s, t.(arrivals := []));
            var second := SendingTurn(nb, first.s, t.(rto := false));
            && first.s.phase.Sending?
            && SendingTurn(nb, s, t) == Move(second.s, first.out + second.out)
  {
    var filled := FillWindow(s, t.rto);
    FillTwice(s, t.rto);
    assert AwaitAck(nb, filled.s, []) == Move(filled.s, []);
    assert filled.out + [] == filled.out;
    assert [] + AwaitAck(nb, filled.s, t.arrivals).out == AwaitAck(nb, filled.s, t.arrivals).out;
  }

  /** The end of send_file: the map is emptied and the sequence number moves past the file. */
  function EndSend(s: Sender, total: nat): Sender {
    s.(dataMap := map[], seqNum := s.seqNum + total)
  }

  // ---------------------------------------------------------------- close

  function StartClose(nb: Numbering, s: Sender): Move {
    Move(s.(phase := Closing, seqNum := s.seqNum + 1), [Header(Encode(nb, s.seqNum + 1), RTP_FIN)])
  }

  function ClosingTurn(nb: Numbering, s: Sender, t: Turn): Move {
    if t.late then Move(s.(phase := Failed), []) else
      var r := ReadUntil(nb, s.seqBase, true, s.fin, RTP_FIN_ACK, t.arrivals);
      var s1 := s.(fin := r.fin);
      if r.hit.Some? then
        Move(if r.hit.value.number == Encode(nb, s.seqNum) then s1.(phase := Closed) else s1, [])
      else if t.fault then Move(s1.(phase := Failed), [])
      else Move(s1, [Header(Encode(nb, s.seqNum), RTP_FIN)])
  }

  // ---------------------------------------------------------------- one iteration of whichever loop is running

  function Iterate(nb: Numbering, s: Sender, t: Turn): Move {
    match s.phase
    case Connecting => ConnectingTurn(nb, s, t)
    case Settling => SettlingTurn(nb, s, t)
    case Sending => SendingTurn(nb, s, t)
    case Closing => ClosingTurn(nb, s, t)
    case _ => Move(s, [])
  }

  /** One of the loops is running. */
  predicate Going(phase: Phase) {
    phase.Connecting? || phase.Settling? || phase.Sending? || phase.Closing?
  }

  /** Any number of iterations, with everything they hand to the socket. */
  function Run(nb: Numbering, s: Sender, turns: seq<Turn>): Move
    decreases |turns|
  {
    if |turns| == 0 then Move(s, []) else
      var before := Run(nb, s, turns[..|turns| - 1]);
      var last := Iterate(nb, before.s, turns[|turns| - 1]);
      Move(last.s, before.out + last.out)
  }

  lemma RunNext(nb: Numbering, s: Sender, turns: seq<Turn>)
    requires |turns| > 0
    ensures var before := Run(nb, s, turns[..|turns| - 1]);
            var last := Iterate(nb, before.s, turns[|turns| - 1]);
            Run(nb, s, turns) == Move(last.s, before.out + last.out)
  {
  }

  /** Outside its loops the sender does nothing. */
  lemma Idle(nb: Numbering, s: Sender, t: Turn)
    requires !Going(s.phase)
    ensures Iterate(nb, s, t) == Move(s, [])
  {
  }
}
