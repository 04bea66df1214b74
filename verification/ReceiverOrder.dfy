/** The buffering receiver of recv_file_gbn (src/rtp.cpp:1009-1045) after any sequence of DAT packets. */
module ReceiverOrder {
  import opened SequenceNumbers
  import opened Packets
  import opened ReceiverSide

  /** The receiver after the packets of `arrivals`, one at a time. */
  function ReceiveAll(nb: Numbering, r: Receiver, arrivals: seq<Packet>): Receiver
    decreases |arrivals|
  {
    if |arrivals| == 0 then r
    else OnData(nb, ReceiveAll(nb, r, arrivals[..|arrivals| - 1]), arrivals[|arrivals| - 1]).r
  }

  ghost predicate Seen(nb: Numbering, seqBase: int, arrivals: seq<Packet>, k: int) {
    exists p :: p in arrivals && Decode(nb, seqBase, p.number) == k
  }

  /** The first of the arrivals with the number `k`. */
  function FirstNumbered(nb: Numbering, seqBase: int, arrivals: seq<Packet>, k: int): Option<Packet>
    decreases |arrivals|
  {
    if |arrivals| == 0 then None else
      var earlier := FirstNumbered(nb, seqBase, arrivals[..|arrivals| - 1], k);
      var last := arrivals[|arrivals| - 1];
      if earlier.Some? then earlier
      else if Decode(nb, seqBase, last.number) == k then Some(last) else None
  }

  lemma {:induction false} FirstNumberedSeen(nb: Numbering, seqBase: int, arrivals: seq<Packet>, k: int)
    ensures FirstNumbered(nb, seqBase, arrivals, k).Some? <==> Seen(nb, seqBase, arrivals, k)
    ensures var p := FirstNumbered(nb, seqBase, arrivals, k);
            p.Some? ==> p.value in arrivals && Decode(nb, seqBase, p.value.number) == k
    decreases |arrivals|
  {
    if |arrivals| > 0 {
      var front, last := arrivals[..|arrivals| - 1], arrivals[|arrivals| - 1];
      FirstNumberedSeen(nb, seqBase, front, k);
      assert forall p :: p in arrivals <==> p in front || p == last;
    }
  }

  /** The receiver's state, told by the packets that have arrived and by nothing else: it keeps, for every number
      from `first` on, the first packet that came with it, and expects the least number that has not come. */
  ghost predicate Holds(nb: Numbering, r: Receiver, first: int, arrivals: seq<Packet>) {
    && (forall k :: k in r.dataMap <==> k >= first && FirstNumbered(nb, r.seqBase, arrivals, k).Some?)
    && (forall k :: k in r.dataMap ==> FirstNumbered(nb, r.seqBase, arrivals, k) == Some(r.dataMap[k]))
    && first <= r.recvBase
    && (forall k :: first <= k < r.recvBase ==> k in r.dataMap)
    && r.recvBase !in r.dataMap
  }

  lemma DataHolds(nb: Numbering, r: Receiver, first: int, arrivals: seq<Packet>, p: Packet)
    requires Holds(nb, r, first, arrivals)
    ensures Holds(nb, OnData(nb, r, p).r, first, arrivals + [p])
  {
    assert (arrivals + [p])[..|arrivals|] == arrivals;
    var y := OnData(nb, r, p).r;
    forall k
      ensures k in y.dataMap <==> k >= first && FirstNumbered(nb, r.seqBase, arrivals + [p], k).Some?
      ensures k in y.dataMap ==> FirstNumbered(nb, r.seqBase, arrivals + [p], k) == Some(y.dataMap[k])
    {
      assert k in r.dataMap <==> k >= first && FirstNumbered(nb, r.seqBase, arrivals, k).Some?;
    }
  }

  lemma {:induction false} ArrivalsHold(nb: Numbering, r: Receiver, arrivals: seq<Packet>)
    requires r.dataMap == map[]
    ensures var y := ReceiveAll(nb, r, arrivals);
            y == r.(dataMap := y.dataMap, recvBase := y.recvBase) && Holds(nb, y, r.recvBase, arrivals)
    decreases |arrivals|
  {
    if |arrivals| > 0 {
      var front, last := arrivals[..|arrivals| - 1], arrivals[|arrivals| - 1];
      ArrivalsHold(nb, r, front);
      DataHolds(nb, ReceiveAll(nb, r, front), r.recvBase, front, last);
      assert front + [last] == arrivals;
    }
  }

  /** After any sequence of DAT packets the map has exactly the numbers seen from the start on, each with the first
      packet that carried it, and recv_base is the least number not seen. */
  lemma ArrivalsDecide(nb: Numbering, r: Receiver, arrivals: seq<Packet>)
    requires r.dataMap == map[]
    ensures var y := ReceiveAll(nb, r, arrivals);
            && (forall k :: k in y.dataMap <==> r.recvBase <= k && Seen(nb, r.seqBase, arrivals, k))
            && (forall k :: k in y.dataMap ==> FirstNumbered(nb, r.seqBase, arrivals, k) == Some(y.dataMap[k]))
            && r.recvBase <= y.recvBase && !Seen(nb, r.seqBase, arrivals, y.recvBase)
            && (forall k :: r.recvBase <= k < y.recvBase ==> Seen(nb, r.seqBase, arrivals, k))
  {
    var y := ReceiveAll(nb, r, arrivals);
    ArrivalsHold(nb, r, arrivals);
    forall k ensures FirstNumbered(nb, r.seqBase, arrivals, k).Some? <==> Seen(nb, r.seqBase, arrivals, k) {
      FirstNumberedSeen(nb, r.seqBase, arrivals, k);
    }
    forall k | r.recvBase <= k < y.recvBase ensures Seen(nb, r.seqBase, arrivals, k) {
      assert k in y.dataMap;
    }
  }

  /** Every ACK is for the greatest number up to which everything has arrived. */
  lemma AckIsGreatestContiguous(nb: Numbering, r: Receiver, arrivals: seq<Packet>, p: Packet) returns (g: int)
    requires r.dataMap == map[]
    ensures OnData(nb, ReceiveAll(nb, r, arrivals), p).out == [Header(Encode(nb, g), RTP_ACK)]
    ensures r.recvBase - 1 <= g && !Seen(nb, r.seqBase, arrivals + [p], g + 1)
    ensures forall k :: r.recvBase <= k <= g ==> Seen(nb, r.seqBase, arrivals + [p], k)
  {
    assert (arrivals + [p])[..|arrivals|] == arrivals;
    ArrivalsDecide(nb, r, arrivals + [p]);
    g := ReceiveAll(nb, r, arrivals + [p]).recvBase - 1;
  }

  /** Packets with one number are one packet. */
  ghost predicate Consistent(nb: Numbering, seqBase: int, arrivals: seq<Packet>) {
    forall p, q ::
      p in arrivals && q in arrivals && Decode(nb, seqBase, p.number) == Decode(nb, seqBase, q.number) ==> p == q
  }

  ghost predicate SamePackets(a: seq<Packet>, b: seq<Packet>) {
    forall p :: p in a <==> p in b
  }

  lemma SameFirst(nb: Numbering, seqBase: int, a: seq<Packet>, b: seq<Packet>, k: int)
    requires SamePackets(a, b) && Consistent(nb, seqBase, a)
    ensures FirstNumbered(nb, seqBase, a, k) == FirstNumbered(nb, seqBase, b, k)
  {
    FirstNumberedSeen(nb, seqBase, a, k);
    FirstNumberedSeen(nb, seqBase, b, k);
    if Seen(nb, seqBase, a, k) {
      assert Seen(nb, seqBase, b, k);
    }
  }

  lemma SameState(nb: Numbering, y: Receiver, z: Receiver, first: int, a: seq<Packet>, b: seq<Packet>)
    requires Holds(nb, y, first, a) && Holds(nb, z, first, b) && y.seqBase == z.seqBase
    requires SamePackets(a, b) && Consistent(nb, y.seqBase, a)
    ensures y.dataMap == z.dataMap && y.recvBase == z.recvBase
  {
    forall k ensures k in y.dataMap <==> k in z.dataMap {
      SameFirst(nb, y.seqBase, a, b, k);
    }
    forall k | k in y.dataMap ensures y.dataMap[k] == z.dataMap[k] {
      SameFirst(nb, y.seqBase, a, b, k);
    }
  }

  /** Order and repetition change nothing: the state depends only on the set of packets that have arrived. */
  lemma OrderIrrelevant(nb: Numbering, r: Receiver, a: seq<Packet>, b: seq<Packet>)
    requires r.dataMap == map[] && SamePackets(a, b) && Consistent(nb, r.seqBase, a)
    ensures ReceiveAll(nb, r, a) == ReceiveAll(nb, r, b)
  {
    ArrivalsHold(nb, r, a);
    ArrivalsHold(nb, r, b);
    SameState(nb, ReceiveAll(nb, r, a), ReceiveAll(nb, r, b), r.recvBase, a, b);
  }

  // ---------------------------------------------------------------- the loop of recv_file_gbn

  /** The DAT packets that the turns read: each turn the first that comes. */
  function DataRead(turns: seq<Turn>): seq<Packet>
    decreases |turns|
  {
    if |turns| == 0 then [] else
      var p := FirstOf(RTP_DAT, turns[|turns| - 1].arrivals);
      DataRead(turns[..|turns| - 1]) + if p.Some? then [p.value] else []
  }

  /** The FIN that is latched on the way. */
  function FinRead(nb: Numbering, r: Receiver, turns: seq<Turn>): Option<int>
    decreases |turns|
  {
    if |turns| == 0 then r.fin else
      ReadUntil(nb, r.seqBase, r.connected, FinRead(nb, r, turns[..|turns| - 1]), RTP_DAT,
                turns[|turns| - 1].arrivals).fin
  }

  /** The ACKs for the packets read, one each. */
  function AcksFor(nb: Numbering, r: Receiver, read: seq<Packet>): (acks: seq<Packet>)
    ensures |acks| == |read|
    decreases |read|
  {
    if |read| == 0 then [] else
      AcksFor(nb, r, read[..|read| - 1]) + [Header(Encode(nb, ReceiveAll(nb, r, read).recvBase - 1), RTP_ACK)]
  }

  /** The loop still runs, and holds what has been read. */
  ghost predicate LoopIs(nb: Numbering, r: Receiver, turns: seq<Turn>, m: Move) {
    HasRead(nb, r, DataRead(turns), FinRead(nb, r, turns), m)
  }

  ghost predicate HasRead(nb: Numbering, r: Receiver, read: seq<Packet>, fin: Option<int>, m: Move) {
    var z := ReceiveAll(nb, r, read);
    m.r == r.(dataMap := z.dataMap, recvBase := z.recvBase, fin := fin) && m.out == AcksFor(nb, r, read)
  }

  lemma {:induction false} ReceiveAllFields(nb: Numbering, r: Receiver, arrivals: seq<Packet>)
    ensures var z := ReceiveAll(nb, r, arrivals); z == r.(dataMap := z.dataMap, recvBase := z.recvBase)
    decreases |arrivals|
  {
    if |arrivals| > 0 {
      ReceiveAllFields(nb, r, arrivals[..|arrivals| - 1]);
    }
  }

  lemma DataNext(nb: Numbering, r: Receiver, read: seq<Packet>, p: Packet)
    ensures ReceiveAll(nb, r, read + [p]) == OnData(nb, ReceiveAll(nb, r, read), p).r
    ensures AcksFor(nb, r, read + [p])
         == AcksFor(nb, r, read) + [Header(Encode(nb, ReceiveAll(nb, r, read + [p]).recvBase - 1), RTP_ACK)]
  {
    assert (read + [p])[..|read|] == read;
  }

  lemma DataAnyFin(nb: Numbering, r: Receiver, y: Receiver, p: Packet)
    requires y == r.(fin := y.fin)
    ensures OnData(nb, y, p).out == OnData(nb, r, p).out && OnData(nb, y, p).r == OnData(nb, r, p).r.(fin := y.fin)
    ensures OnData(nb, r, p).out == [Header(Encode(nb, OnData(nb, r, p).r.recvBase - 1), RTP_ACK)]
  {
  }

  /** Whether the loop is over once it has this FIN and expects this number: with a FIN beyond the data only when it is
      late, with one that the data has reached only when it is not. */
  function LoopEnd(fin: Option<int>, recvBase: int, late: bool): Phase {
    if late then if fin.Some? && recvBase < fin.value then Received else Failed
    else if fin.Some? && fin.value <= recvBase then Received else Receiving
  }

  lemma ReadTurn(nb: Numbering, y: Receiver, t: Turn)
    requires y.phase.Receiving? && LoopEnd(y.fin, y.recvBase, t.late).Receiving?
    ensures var fin := ReadUntil(nb, y.seqBase, y.connected, y.fin, RTP_DAT, t.arrivals).fin;
            var p := FirstOf(RTP_DAT, t.arrivals);
            Iterate(nb, y, t) == if p.Some? then OnData(nb, y.(fin := fin), p.value) else Move(y.(fin := fin), [])
  {
    ReadUntilHit(nb, y.seqBase, y.connected, y.fin, RTP_DAT, t.arrivals);
  }

  lemma EndTurn(nb: Numbering, y: Receiver, t: Turn)
    requires y.phase.Receiving? && !LoopEnd(y.fin, y.recvBase, t.late).Receiving?
    ensures Iterate(nb, y, t) == Move(y.(phase := LoopEnd(y.fin, y.recvBase, t.late)), [])
  {
  }

  lemma ReadsData(nb: Numbering, r: Receiver, read: seq<Packet>, more: seq<Packet>, fin: Option<int>, m: Move,
                  next: Option<int>, p: Packet)
    requires HasRead(nb, r, read, fin, m) && more == read + [p]
    ensures var k := OnData(nb, m.r.(fin := next), p); HasRead(nb, r, more, next, Move(k.r, m.out + k.out))
  {
    ReceiveAllFields(nb, r, read);
    ReceiveAllFields(nb, r, more);
    DataNext(nb, r, read, p);
    DataAnyFin(nb, ReceiveAll(nb, r, read), m.r.(fin := next), p);
  }

  lemma ReadsNothing(nb: Numbering, r: Receiver, read: seq<Packet>, more: seq<Packet>, fin: Option<int>, m: Move,
                     next: Option<int>)
    requires HasRead(nb, r, read, fin, m) && more == read + []
    ensures HasRead(nb, r, more, next, Move(m.r.(fin := next), m.out + []))
  {
    assert more == read;
  }

  lemma LoopNext(nb: Numbering, r: Receiver, turns: seq<Turn>, front: seq<Turn>, t: Turn, m: Move)
    requires |turns| > 0 && front == turns[..|turns| - 1] && t == turns[|turns| - 1]
    requires r.phase.Receiving? && LoopIs(nb, r, front, m) && LoopEnd(m.r.fin, m.r.recvBase, t.late).Receiving?
    ensures LoopIs(nb, r, turns, Move(Iterate(nb, m.r, t).r, m.out + Iterate(nb, m.r, t).out))
  {
    var p := FirstOf(RTP_DAT, t.arrivals);
    ReadTurn(nb, m.r, t);
    if p.Some? {
      ReadsData(nb, r, DataRead(front), DataRead(turns), FinRead(nb, r, front), m, FinRead(nb, r, turns), p.value);
    } else {
      ReadsNothing(nb, r, DataRead(front), DataRead(turns), FinRead(nb, r, front), m, FinRead(nb, r, turns));
    }
  }

  lemma RunStarts(nb: Numbering, r: Receiver, turns: seq<Turn>)
    requires |turns| > 0 && Run(nb, r, turns).r.phase.Receiving? && r.phase.Receiving?
    ensures Run(nb, r, turns[..|turns| - 1]).r.phase.Receiving?
    decreases |turns|
  {
    ReceivingPhase(nb, r, turns[..|turns| - 1]);
  }

  /** Against any peer, as long as recv_file_gbn runs: its map and recv_base are those of the DAT packets its turns
      read, the first one of each, in any order; it has sent one ACK for each of them and nothing else; and it has
      latched the first FIN. */
  lemma {:induction false} ReceiveLoop(nb: Numbering, r: Receiver, turns: seq<Turn>)
    requires r.phase.Receiving? && Run(nb, r, turns).r.phase.Receiving?
    ensures LoopIs(nb, r, turns, Run(nb, r, turns))
    decreases |turns|
  {
    if |turns| > 0 {
      var front, last := turns[..|turns| - 1], turns[|turns| - 1];
      RunStarts(nb, r, turns);
      ReceiveLoop(nb, r, front);
      RunNext(nb, r, turns);
      var m := Run(nb, r, front);
      if LoopEnd(m.r.fin, m.r.recvBase, last.late).Receiving? {
        LoopNext(nb, r, turns, front, last, m);
      } else {
        EndTurn(nb, m.r, last);
      }
    }
  }

  /** And when it ends: the next turn ends it exactly if it is late or all data before the FIN has come, with success
      in the second case, and in the first only with a FIN that the data has not reached. */
  lemma ReceiveLoopEnds(nb: Numbering, r: Receiver, turns: seq<Turn>, t: Turn)
    requires r.phase.Receiving? && Run(nb, r, turns).r.phase.Receiving?
    ensures var y := Run(nb, r, turns).r;
            var end := LoopEnd(FinRead(nb, r, turns), ReceiveAll(nb, r, DataRead(turns)).recvBase, t.late);
            && Iterate(nb, y, t).r.phase == end
            && (!end.Receiving? ==> Iterate(nb, y, t).out == [] && Iterate(nb, y, t).r.dataMap == y.dataMap)
  {
    var y := Run(nb, r, turns).r;
    ReceiveLoop(nb, r, turns);
    if LoopEnd(y.fin, y.recvBase, t.late).Receiving? {
      ReadTurn(nb, y, t);
    } else {
      EndTurn(nb, y, t);
    }
  }
}
