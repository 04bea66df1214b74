/** The loops of connect, wait_connect, close and wait_close (src/rtp.cpp:271-665), told without their code: each waits
    for a packet of one kind with one number, and what it does is decided by what its turns bring, against any peer. */
module WaitingLoops {
  import opened SequenceNumbers
  import opened Packets
  import S = SenderSide
  import R = ReceiverSide

  /** What one turn brings to a loop that waits: the packet waited for, another one of its kind, no such packet, no such
      packet and an error, or the deadline, which is looked at first. */
  datatype Heard = Answer | Stray | Silence | Broken | Late

  /** A loop waits for packets with these flags and this number, or with any number; it may have a deadline, and it may
      go on after an answer. */
  datatype Wait = Wait(flags: int, number: Option<int>, timed: bool, once: bool)

  function Hear(w: Wait, t: Turn): Heard {
    var p := FirstOf(w.flags, t.arrivals);
    if w.timed && t.late then Late
    else if p.Some? then if w.number.None? || p.value.number == w.number.value then Answer else Stray
    else if t.fault then Broken else Silence
  }

  predicate GoesOn(w: Wait, h: Heard) {
    h.Stray? || h.Silence? || (h.Answer? && !w.once)
  }

  /** What ended the loop: the first thing heard after which it does not go on. */
  function Ending(w: Wait, turns: seq<Turn>): Option<Heard>
    decreases |turns|
  {
    if |turns| == 0 then None else
      var earlier := Ending(w, turns[..|turns| - 1]);
      var last := Hear(w, turns[|turns| - 1]);
      if earlier.Some? then earlier else if GoesOn(w, last) then None else Some(last)
  }

  /** How often the loop heard `h`. */
  function Times(w: Wait, h: Heard, turns: seq<Turn>): nat
    decreases |turns|
  {
    if |turns| == 0 then 0 else
      var front, last := turns[..|turns| - 1], turns[|turns| - 1];
      Times(w, h, front) + if Ending(w, front).None? && Hear(w, last) == h then 1 else 0
  }

  /** The FIN latched after one more turn, and after all that the loop has heard: what is read while the loop goes on
      is latched, whatever it waits for. */
  function FinNext(nb: Numbering, seqBase: int, connected: bool, w: Wait, fin: Option<int>, t: Turn): Option<int> {
    if w.timed && t.late then fin else ReadUntil(nb, seqBase, connected, fin, w.flags, t.arrivals).fin
  }

  function FinHeard(nb: Numbering, seqBase: int, connected: bool, w: Wait, fin: Option<int>, turns: seq<Turn>)
    : Option<int>
    decreases |turns|
  {
    if |turns| == 0 then fin else
      var front, last := turns[..|turns| - 1], turns[|turns| - 1];
      var before := FinHeard(nb, seqBase, connected, w, fin, front);
      if Ending(w, front).Some? then before else FinNext(nb, seqBase, connected, w, before, last)
  }

  lemma {:induction false} EndingIsFirst(w: Wait, turns: seq<Turn>)
    ensures Ending(w, turns).None? <==> forall i :: 0 <= i < |turns| ==> GoesOn(w, Hear(w, turns[i]))
    ensures Ending(w, turns).Some? ==>
              exists i :: 0 <= i < |turns| && Ending(w, turns) == Some(Hear(w, turns[i]))
                          && !GoesOn(w, Hear(w, turns[i]))
                          && forall j :: 0 <= j < i ==> GoesOn(w, Hear(w, turns[j]))
    decreases |turns|
  {
    if |turns| > 0 {
      var front := turns[..|turns| - 1];
      EndingIsFirst(w, front);
      assert forall i :: 0 <= i < |front| ==> front[i] == turns[i];
      if Ending(w, front).Some? {
        var i :| 0 <= i < |front| && Ending(w, front) == Some(Hear(w, front[i])) && !GoesOn(w, Hear(w, front[i]))
                 && forall j :: 0 <= j < i ==> GoesOn(w, Hear(w, front[j]));
        assert Ending(w, turns) == Some(Hear(w, turns[i]));
      }
    }
  }

  /** What comes after the end of the loop is not heard. */
  lemma {:induction false} EndingStays(w: Wait, turns: seq<Turn>, n: nat)
    requires n <= |turns| && Ending(w, turns[..n]).Some?
    ensures Ending(w, turns) == Ending(w, turns[..n])
    decreases |turns|
  {
    if n < |turns| {
      assert turns[..|turns| - 1][..n] == turns[..n];
      EndingStays(w, turns[..|turns| - 1], n);
    } else {
      assert turns[..n] == turns;
    }
  }

  function Copies(p: Packet, n: nat): (out: seq<Packet>)
    ensures |out| == n
  {
    seq(n, _ => p)
  }

  lemma OneMore(p: Packet, n: nat)
    ensures Copies(p, n) + [p] == Copies(p, n + 1) && Copies(p, n) + [] == Copies(p, n)
  {
  }

  /** Before its last turn the loop was still going. */
  ghost predicate Waiting(w: Wait, turns: seq<Turn>) {
    |turns| > 0 ==> Ending(w, turns[..|turns| - 1]).None?
  }

  // ---------------------------------------------------------------- the deadline, for all loops

  /** A sender whose deadline has passed leaves its loop and sends nothing. */
  lemma LateSenderEnds(nb: Numbering, s: S.Sender, t: Turn)
    requires t.late && (s.phase.Settling? || s.phase.Sending? || s.phase.Closing?)
    ensures !S.Going(S.Iterate(nb, s, t).s.phase) && S.Iterate(nb, s, t).out == []
    ensures S.Iterate(nb, s, t).s.phase == if s.phase.Settling? then S.Connected else S.Failed
  {
  }

  /** So does a receiver. */
  lemma LateReceiverEnds(nb: Numbering, r: R.Receiver, t: Turn)
    requires t.late && R.Going(r.phase)
    ensures !R.Going(R.Iterate(nb, r, t).r.phase) && R.Iterate(nb, r, t).out == []
    ensures r.phase.Listening? || r.phase.Accepting? || r.phase.AwaitingFin? ==> R.Iterate(nb, r, t).r.phase.Failed?
    ensures r.phase.Lingering? ==> R.Iterate(nb, r, t).r.phase.Done?
  {
  }

  // ---------------------------------------------------------------- close

  function CloseWait(number: int): Wait {
    Wait(RTP_FIN_ACK, Some(number), true, true)
  }

  function CloseEnd(e: Option<Heard>): S.Phase {
    match e
    case None => S.Closing
    case Some(Answer) => S.Closed
    case _ => S.Failed
  }

  /** The state and the packets of the loop of close, after `heard` ended it, with `silences` on the way. */
  ghost predicate CloseIs(nb: Numbering, s: S.Sender, m: S.Move, heard: Option<Heard>, silences: nat,
                          fin: Option<int>) {
    && m.s == s.(phase := CloseEnd(heard), fin := fin)
    && m.out == Copies(Header(Encode(nb, s.seqNum), RTP_FIN), silences)
  }

  lemma CloseTurn(nb: Numbering, s: S.Sender, m: S.Move, t: Turn, silences: nat, fin: Option<int>)
    requires s.phase.Closing? && CloseIs(nb, s, m, None, silences, fin)
    ensures var w := CloseWait(Encode(nb, s.seqNum));
            var k, h := S.Iterate(nb, m.s, t), Hear(w, t);
            CloseIs(nb, s, S.Move(k.s, m.out + k.out), if h.Stray? || h.Silence? then None else Some(h),
                    silences + (if h.Silence? then 1 else 0), FinNext(nb, s.seqBase, true, w, fin, t))
  {
    ReadUntilHit(nb, m.s.seqBase, true, m.s.fin, RTP_FIN_ACK, t.arrivals);
    OneMore(Header(Encode(nb, s.seqNum), RTP_FIN), silences);
  }

  /** The loop of close: it succeeds exactly if the FIN&ACK with the right number comes before the deadline and before
      any error, otherwise it fails at the first of these; and it repeats the FIN after every silent wait, and sends
      nothing else. */
  lemma {:induction false} CloseLoop(nb: Numbering, s: S.Sender, turns: seq<Turn>)
    requires s.phase.Closing?
    ensures var w := CloseWait(Encode(nb, s.seqNum));
            CloseIs(nb, s, S.Run(nb, s, turns), Ending(w, turns), Times(w, Silence, turns),
                    FinHeard(nb, s.seqBase, true, w, s.fin, turns))
    decreases |turns|
  {
    var w := CloseWait(Encode(nb, s.seqNum));
    if |turns| > 0 {
      var front, last := turns[..|turns| - 1], turns[|turns| - 1];
      CloseLoop(nb, s, front);
      S.RunNext(nb, s, turns);
      if Ending(w, front).None? {
        CloseTurn(nb, s, S.Run(nb, s, front), last, Times(w, Silence, front),
                  FinHeard(nb, s.seqBase, true, w, s.fin, front));
      } else {
        S.Idle(nb, S.Run(nb, s, front).s, last);
      }
    }
  }

  // ---------------------------------------------------------------- connect

  function SynAckWait(number: int): Wait {
    Wait(RTP_SYN_ACK, Some(number), false, true)
  }

  /** Where connect stands: it gives up after fifty-one silent waits. */
  function ConnectEnd(e: Option<Heard>, silences: nat): S.Phase {
    match e
    case None => if silences <= 50 then S.Connecting else S.Failed
    case Some(Answer) => S.Settling
    case _ => S.Failed
  }

  ghost predicate ConnectIs(nb: Numbering, s: S.Sender, m: S.Move, heard: Option<Heard>, silences: nat,
                            fin: Option<int>) {
    && m.s == s.(phase := ConnectEnd(heard, silences), retry := silences, fin := fin, seqNum := m.s.seqNum)
    && m.s.seqNum == (if heard == Some(Answer) then s.isn else s.seqNum)
    && m.out == Copies(Header(s.isn, RTP_SYN), silences)
                + if heard == Some(Answer) then [Header(Successor(nb, s.isn), RTP_ACK)] else []
  }

  lemma ConnectTurn(nb: Numbering, s: S.Sender, m: S.Move, t: Turn, silences: nat, fin: Option<int>)
    requires s.phase.Connecting? && s.seqBase == s.isn && ConnectIs(nb, s, m, None, silences, fin) && silences <= 50
    ensures var w := SynAckWait(Successor(nb, s.isn));
            var k, h := S.Iterate(nb, m.s, t), Hear(w, t);
            ConnectIs(nb, s, S.Move(k.s, m.out + k.out), if h.Stray? || h.Silence? then None else Some(h),
                      silences + (if h.Silence? then 1 else 0), FinNext(nb, s.seqBase, true, w, fin, t))
  {
    ReadUntilHit(nb, m.s.seqBase, true, m.s.fin, RTP_SYN_ACK, t.arrivals);
    OneMore(Header(s.isn, RTP_SYN), silences);
  }

  /** The first loop of connect: it goes on after a SYN&ACK with a wrong number, and has no deadline; it repeats the SYN
      after every silent wait, and the fifty-first ends it; the right SYN&ACK is answered, and sets seq_num to x. */
  lemma {:induction false} ConnectLoop(nb: Numbering, s: S.Sender, turns: seq<Turn>)
    requires s.phase.Connecting? && s.seqBase == s.isn && s.retry == 0
    requires var w := SynAckWait(Successor(nb, s.isn));
             Waiting(w, turns) && (|turns| > 0 ==> Times(w, Silence, turns[..|turns| - 1]) <= 50)
    ensures var w := SynAckWait(Successor(nb, s.isn));
            ConnectIs(nb, s, S.Run(nb, s, turns), Ending(w, turns), Times(w, Silence, turns),
                      FinHeard(nb, s.seqBase, true, w, s.fin, turns))
    decreases |turns|
  {
    var w := SynAckWait(Successor(nb, s.isn));
    if |turns| > 0 {
      var front, last := turns[..|turns| - 1], turns[|turns| - 1];
      ConnectLoop(nb, s, front);
      S.RunNext(nb, s, turns);
      ConnectTurn(nb, s, S.Run(nb, s, front), last, Times(w, Silence, front),
                  FinHeard(nb, s.seqBase, true, w, s.fin, front));
    } else {
      assert Copies(Header(s.isn, RTP_SYN), 0) + [] == [];
    }
  }

  function SettleWait(number: int): Wait {
    Wait(RTP_SYN_ACK, Some(number), true, false)
  }

  function SettleEnd(e: Option<Heard>): S.Phase {
    match e
    case None => S.Settling
    case Some(Late) => S.Connected
    case _ => S.Failed
  }

  ghost predicate SettleIs(nb: Numbering, s: S.Sender, m: S.Move, heard: Option<Heard>, answers: nat,
                           fin: Option<int>) {
    && m.s == s.(phase := SettleEnd(heard), fin := fin)
    && m.out == Copies(Header(Successor(nb, s.isn), RTP_ACK), answers)
  }

  lemma SettleTurn(nb: Numbering, s: S.Sender, m: S.Move, t: Turn, answers: nat, fin: Option<int>)
    requires s.phase.Settling? && SettleIs(nb, s, m, None, answers, fin)
    ensures var w := SettleWait(Successor(nb, s.isn));
            var k, h := S.Iterate(nb, m.s, t), Hear(w, t);
            SettleIs(nb, s, S.Move(k.s, m.out + k.out), if h.Late? || h.Broken? then Some(h) else None,
                     answers + (if h.Answer? then 1 else 0), FinNext(nb, s.seqBase, true, w, fin, t))
  {
    ReadUntilHit(nb, m.s.seqBase, true, m.s.fin, RTP_SYN_ACK, t.arrivals);
    OneMore(Header(Successor(nb, s.isn), RTP_ACK), answers);
  }

  /** The two seconds after the handshake ACK: every further SYN&ACK with the right number is answered with the same
      ACK, and connect returns 0 at the deadline unless an error comes before it. */
  lemma {:induction false} SettleLoop(nb: Numbering, s: S.Sender, turns: seq<Turn>)
    requires s.phase.Settling?
    ensures var w := SettleWait(Successor(nb, s.isn));
            SettleIs(nb, s, S.Run(nb, s, turns), Ending(w, turns), Times(w, Answer, turns),
                     FinHeard(nb, s.seqBase, true, w, s.fin, turns))
    decreases |turns|
  {
    var w := SettleWait(Successor(nb, s.isn));
    if |turns| > 0 {
      var front, last := turns[..|turns| - 1], turns[|turns| - 1];
      SettleLoop(nb, s, front);
      EndingKind(w, front);
      S.RunNext(nb, s, turns);
      if Ending(w, front).None? {
        SettleTurn(nb, s, S.Run(nb, s, front), last, Times(w, Answer, front),
                  FinHeard(nb, s.seqBase, true, w, s.fin, front));
      } else {
        S.Idle(nb, S.Run(nb, s, front).s, last);
      }
    }
  }

  /** What ends a loop is never something it goes on after. */
  lemma {:induction false} EndingKind(w: Wait, turns: seq<Turn>)
    ensures Ending(w, turns).Some? ==> !GoesOn(w, Ending(w, turns).value)
    decreases |turns|
  {
    if |turns| > 0 {
      EndingKind(w, turns[..|turns| - 1]);
    }
  }

  // ---------------------------------------------------------------- wait_connect

  const SYN_WAIT := Wait(RTP_SYN, None, true, true)

  /** What one turn makes of a receiver that waits for a SYN: every SYN is an answer, and fixes the numbers of the
      connection. */
  ghost predicate Listened(nb: Numbering, r: R.Receiver, t: Turn, m: R.Move) {
    var h := Hear(SYN_WAIT, t);
    && m.r.fin == FinNext(nb, r.seqBase, r.connected, SYN_WAIT, r.fin, t)
    && (h.Silence? ==> m.r == r.(fin := m.r.fin) && m.out == [])
    && (h.Late? || h.Broken? ==> m.r == r.(phase := R.Failed, fin := m.r.fin) && m.out == [])
    && (h.Answer? ==>
          var x := FirstOf(RTP_SYN, t.arrivals).value.number;
          && m.r.phase == R.Accepting(Successor(nb, x)) && m.r.connected
          && m.r.seqBase == Decode(nb, r.seqBase, x) && m.r.seqNum == Decode(nb, m.r.seqBase, x)
          && m.out == [Header(Successor(nb, x), RTP_SYN_ACK)])
    && !h.Stray?
  }

  lemma ListenTurn(nb: Numbering, r: R.Receiver, t: Turn)
    requires r.phase.Listening?
    ensures Listened(nb, r, t, R.Iterate(nb, r, t))
  {
    ReadUntilHit(nb, r.seqBase, r.connected, r.fin, RTP_SYN, t.arrivals);
  }

  lemma {:induction false} ListenWaits(nb: Numbering, r: R.Receiver, turns: seq<Turn>)
    requires r.phase.Listening? && Ending(SYN_WAIT, turns).None?
    ensures var m := R.Run(nb, r, turns);
            m.r == r.(fin := FinHeard(nb, r.seqBase, r.connected, SYN_WAIT, r.fin, turns)) && m.out == []
    decreases |turns|
  {
    if |turns| > 0 {
      var front := turns[..|turns| - 1];
      ListenWaits(nb, r, front);
      ListenTurn(nb, R.Run(nb, r, front).r, turns[|turns| - 1]);
    }
  }

  /** The first loop of wait_connect: as long as no SYN comes, nothing changes and nothing is sent; the first turn that
      brings one is answered, and the deadline or an error before it ends the loop. */
  lemma ListenLoop(nb: Numbering, r: R.Receiver, turns: seq<Turn>, t: Turn)
    requires r.phase.Listening? && Ending(SYN_WAIT, turns).None?
    ensures var m := R.Run(nb, r, turns);
            && m.r == r.(fin := FinHeard(nb, r.seqBase, r.connected, SYN_WAIT, r.fin, turns)) && m.out == []
            && Listened(nb, m.r, t, R.Iterate(nb, m.r, t))
  {
    ListenWaits(nb, r, turns);
    ListenTurn(nb, R.Run(nb, r, turns).r, t);
  }

  function HandshakeWait(number: int): Wait {
    Wait(RTP_ACK, Some(number), true, true)
  }

  function AcceptEnd(reply: int, e: Option<Heard>): R.Phase {
    match e
    case None => R.Accepting(reply)
    case Some(Answer) => R.Accepted
    case _ => R.Failed
  }

  ghost predicate AcceptIs(r: R.Receiver, m: R.Move, reply: int, heard: Option<Heard>, silences: nat,
                           fin: Option<int>) {
    && m.r == r.(phase := AcceptEnd(reply, heard), fin := fin)
    && m.out == Copies(Header(reply, RTP_SYN_ACK), silences)
  }

  lemma AcceptTurn(nb: Numbering, r: R.Receiver, m: R.Move, reply: int, t: Turn, silences: nat, fin: Option<int>)
    requires r.phase == R.Accepting(reply) && AcceptIs(r, m, reply, None, silences, fin)
    ensures var w := HandshakeWait(reply);
            var k, h := R.Iterate(nb, m.r, t), Hear(w, t);
            AcceptIs(r, R.Move(k.r, m.out + k.out), reply, if h.Stray? || h.Silence? then None else Some(h),
                     silences + (if h.Silence? then 1 else 0), FinNext(nb, r.seqBase, r.connected, w, fin, t))
  {
    ReadUntilHit(nb, m.r.seqBase, m.r.connected, m.r.fin, RTP_ACK, t.arrivals);
    OneMore(Header(reply, RTP_SYN_ACK), silences);
  }

  /** The second loop of wait_connect: it succeeds exactly if the ACK with the right number comes before the deadline
      and before any error; and it repeats the SYN&ACK after every silent wait, and sends nothing else. */
  lemma {:induction false} AcceptLoop(nb: Numbering, r: R.Receiver, reply: int, turns: seq<Turn>)
    requires r.phase == R.Accepting(reply)
    ensures var w := HandshakeWait(reply);
            AcceptIs(r, R.Run(nb, r, turns), reply, Ending(w, turns), Times(w, Silence, turns),
                     FinHeard(nb, r.seqBase, r.connected, w, r.fin, turns))
    decreases |turns|
  {
    var w := HandshakeWait(reply);
    if |turns| > 0 {
      var front, last := turns[..|turns| - 1], turns[|turns| - 1];
      AcceptLoop(nb, r, reply, front);
      R.RunNext(nb, r, turns);
      if Ending(w, front).None? {
        AcceptTurn(nb, r, R.Run(nb, r, front), reply, last, Times(w, Silence, front),
                  FinHeard(nb, r.seqBase, r.connected, w, r.fin, front));
      } else {
        R.Idle(nb, R.Run(nb, r, front).r, last);
      }
    }
  }

  // ---------------------------------------------------------------- wait_close

  function FinWait(number: int, once: bool): Wait {
    Wait(RTP_FIN, Some(number), true, once)
  }

  /** What one turn makes of a receiver that waits for the FIN: only the one with the right number is answered; the
      others, and silence, change nothing. */
  ghost predicate FinTaken(nb: Numbering, r: R.Receiver, t: Turn, m: R.Move) {
    var w := FinWait(Encode(nb, r.seqNum), true);
    var h := Hear(w, t);
    && m.r == r.(phase := m.r.phase, fin := FinNext(nb, r.seqBase, r.connected, w, r.fin, t))
    && m.r.phase == (if h.Answer? then R.Lingering else if h.Late? || h.Broken? then R.Failed else R.AwaitingFin)
    && m.out == if h.Answer? then [Header(Encode(nb, r.seqNum), RTP_FIN_ACK)] else []
  }

  lemma FinTurn(nb: Numbering, r: R.Receiver, t: Turn)
    requires r.phase.AwaitingFin?
    ensures FinTaken(nb, r, t, R.Iterate(nb, r, t))
  {
    ReadUntilHit(nb, r.seqBase, r.connected, r.fin, RTP_FIN, t.arrivals);
  }

  lemma {:induction false} FinWaits(nb: Numbering, r: R.Receiver, turns: seq<Turn>)
    requires r.phase.AwaitingFin? && Ending(FinWait(Encode(nb, r.seqNum), true), turns).None?
    ensures var m, w := R.Run(nb, r, turns), FinWait(Encode(nb, r.seqNum), true);
            m.r == r.(fin := FinHeard(nb, r.seqBase, r.connected, w, r.fin, turns)) && m.out == []
    decreases |turns|
  {
    if |turns| > 0 {
      var front := turns[..|turns| - 1];
      FinWaits(nb, r, front);
      FinTurn(nb, R.Run(nb, r, front).r, turns[|turns| - 1]);
    }
  }

  lemma WaitCloseStarts(nb: Numbering, r: R.Receiver)
    ensures var start := R.StartWaitClose(nb, r);
            && start.r == r.(phase := if r.fin.Some? then R.Done else R.AwaitingFin, seqNum := r.seqNum + 1)
            && start.out == if r.fin.Some? then [Header(Encode(nb, r.seqNum + 1), RTP_FIN_ACK)] else []
  {
  }

  /** wait_close moves to the next number. With a FIN latched it answers at once, and is done. Otherwise it waits for
      the FIN with that number, and until it comes nothing is sent. */
  lemma FinLoop(nb: Numbering, r: R.Receiver, turns: seq<Turn>, t: Turn)
    requires r.fin.None? ==> Ending(FinWait(Encode(nb, r.seqNum + 1), true), turns).None?
    ensures var start := R.StartWaitClose(nb, r);
            && start.r == r.(phase := start.r.phase, seqNum := r.seqNum + 1)
            && (r.fin.Some? ==>
                  start.r.phase.Done? && start.out == [Header(Encode(nb, r.seqNum + 1), RTP_FIN_ACK)])
            && (r.fin.None? ==>
                  var w, m := FinWait(Encode(nb, r.seqNum + 1), true), R.Run(nb, start.r, turns);
                  && start.out + m.out == []
                  && m.r == start.r.(fin := FinHeard(nb, r.seqBase, r.connected, w, r.fin, turns))
                  && FinTaken(nb, m.r, t, R.Iterate(nb, m.r, t)))
  {
    WaitCloseStarts(nb, r);
    if r.fin.None? {
      var start := R.StartWaitClose(nb, r).r;
      FinWaits(nb, start, turns);
      FinTurn(nb, R.Run(nb, start, turns).r, t);
    }
  }

  function LingerEnd(e: Option<Heard>): R.Phase {
    match e
    case None => R.Lingering
    case Some(Late) => R.Done
    case _ => R.Failed
  }

  ghost predicate LingerIs(nb: Numbering, r: R.Receiver, m: R.Move, heard: Option<Heard>, answers: nat,
                           fin: Option<int>) {
    && m.r == r.(phase := LingerEnd(heard), fin := fin, connected := r.connected && heard != Some(Late))
    && m.out == Copies(Header(Encode(nb, r.seqNum), RTP_FIN_ACK), answers)
  }

  lemma LingerTurn(nb: Numbering, r: R.Receiver, m: R.Move, t: Turn, answers: nat, fin: Option<int>)
    requires r.phase.Lingering? && LingerIs(nb, r, m, None, answers, fin)
    ensures var w := FinWait(Encode(nb, r.seqNum), false);
            var k, h := R.Iterate(nb, m.r, t), Hear(w, t);
            LingerIs(nb, r, R.Move(k.r, m.out + k.out), if h.Late? || h.Broken? then Some(h) else None,
                     answers + (if h.Answer? then 1 else 0), FinNext(nb, r.seqBase, r.connected, w, fin, t))
  {
    ReadUntilHit(nb, m.r.seqBase, m.r.connected, m.r.fin, RTP_FIN, t.arrivals);
    OneMore(Header(Encode(nb, r.seqNum), RTP_FIN_ACK), answers);
  }

  /** The two seconds after the FIN&ACK: every further FIN with the right number is answered again, and wait_close
      returns 0, disconnected, at the deadline unless an error comes before it. */
  lemma {:induction false} LingerLoop(nb: Numbering, r: R.Receiver, turns: seq<Turn>)
    requires r.phase.Lingering?
    ensures var w := FinWait(Encode(nb, r.seqNum), false);
            LingerIs(nb, r, R.Run(nb, r, turns), Ending(w, turns), Times(w, Answer, turns),
                     FinHeard(nb, r.seqBase, r.connected, w, r.fin, turns))
    decreases |turns|
  {
    var w := FinWait(Encode(nb, r.seqNum), false);
    if |turns| > 0 {
      var front, last := turns[..|turns| - 1], turns[|turns| - 1];
      LingerLoop(nb, r, front);
      EndingKind(w, front);
      R.RunNext(nb, r, turns);
      if Ending(w, front).None? {
        LingerTurn(nb, r, R.Run(nb, r, front), last, Times(w, Answer, front),
                  FinHeard(nb, r.seqBase, r.connected, w, r.fin, front));
      } else {
        R.Idle(nb, R.Run(nb, r, front).r, last);
      }
    }
  }
}
